/** The two-goroutine ping-pong of measureSingleLink, one statement on shared data a step.

    Whether pinning succeeds is fixed by okA and okB, so a statement for all of them covers every way
    pinning may fail. A step by an agent that is blocked, spinning or finished leaves the state alone. */
module PingPongMachine {
  import opened FairTermination
  import opened Wrappers

  datatype Agent = A | B | Main

  datatype Pc =
    | Pin            // lockToCPU
    | LockMutex | CheckFirst | SetFirst | UnlockMutex | FailDone     // pinning failed
    | PinnedDone | BarrierWait | ReadErr                              // pinning succeeded
    | LoopHead | Load | Store                                         // the handoff loop
    | GroupDone | Finished

  datatype Thread = Thread(pc: Pc, k: nat)

  datatype MainPc = Waiting | Returned(err: Option<Agent>)

  datatype Shared = Shared(
    signal: int,
    barrier: int,
    group: int,
    mutex: Option<Agent>,
    firstErr: Option<Agent>,
    stores: seq<Agent>)

  datatype State = State(iter: int, okA: bool, okB: bool, a: Thread, b: Thread, main: MainPc, mem: Shared)

  function Init(iter: int, okA: bool, okB: bool): State {
    State(iter, okA, okB, Thread(Pin, 0), Thread(Pin, 0), Waiting, Shared(0, 2, 2, None, None, []))
  }

  /** The value the thread waits for; it stores the other one. */
  function Awaited(x: Agent): int { if x == A then 0 else 1 }

  /** One statement of goroutine x; ok says whether its pinning succeeds. */
  function Act(iter: int, ok: bool, x: Agent, t: Thread, m: Shared): (Thread, Shared) {
    match t.pc
    case Pin => (t.(pc := if ok then PinnedDone else LockMutex), m)
    case LockMutex => if m.mutex.None? then (t.(pc := CheckFirst), m.(mutex := Some(x))) else (t, m)
    case CheckFirst => (t.(pc := if m.firstErr.None? then SetFirst else UnlockMutex), m)
    case SetFirst => (t.(pc := UnlockMutex), m.(firstErr := Some(x)))
    case UnlockMutex => (t.(pc := FailDone), m.(mutex := None))
    case FailDone => (t.(pc := GroupDone), m.(barrier := m.barrier - 1))
    case PinnedDone => (t.(pc := BarrierWait), m.(barrier := m.barrier - 1))
    case BarrierWait => (if m.barrier == 0 then t.(pc := ReadErr) else t, m)
    case ReadErr => (t.(pc := if m.firstErr.Some? then GroupDone else LoopHead), m)
    case LoopHead => (t.(pc := if t.k < iter then Load else GroupDone), m)
    case Load => (if m.signal == Awaited(x) then t.(pc := Store) else t, m)
    case Store => (Thread(LoopHead, t.k + 1), m.(signal := 1 - Awaited(x), stores := m.stores + [x]))
    case GroupDone => (t.(pc := Finished), m.(group := m.group - 1))
    case Finished => (t, m)
  }

  function Step(s: State, x: Agent): State {
    match x
    case A => var (t, m) := Act(s.iter, s.okA, A, s.a, s.mem); s.(a := t, mem := m)
    case B => var (t, m) := Act(s.iter, s.okB, B, s.b, s.mem); s.(b := t, mem := m)
    case Main => if s.main.Waiting? && s.mem.group == 0 then s.(main := Returned(s.mem.firstErr)) else s
  }

  function Run(s: State, schedule: seq<Agent>): State
    decreases |schedule|
  {
    if schedule == [] then s else Run(Step(s, schedule[0]), schedule[1..])
  }

  // ---------------------------------------------------------------- the invariant

  predicate InMutex(pc: Pc) { pc.CheckFirst? || pc.SetFirst? || pc.UnlockMutex? }
  predicate FailPath(pc: Pc) { pc.LockMutex? || InMutex(pc) || pc.FailDone? }
  predicate InLoop(pc: Pc) { pc.LoopHead? || pc.Load? || pc.Store? }
  predicate PastBarrier(pc: Pc) { pc.ReadErr? || InLoop(pc) }
  predicate Leaving(pc: Pc) { pc.GroupDone? || pc.Finished? }
  predicate BarrierOpen(pc: Pc) { pc.BarrierWait? || PastBarrier(pc) || Leaving(pc) }

  function Rounds(iter: int): nat { if iter < 0 then 0 else iter }

  predicate ThreadInv(iter: int, ok: bool, x: Agent, t: Thread, m: Shared) {
    && (m.mutex == Some(x) <==> InMutex(t.pc))
    && (t.pc.SetFirst? ==> m.firstErr.None?)
    && (FailPath(t.pc) ==> !ok)
    && (t.pc.PinnedDone? || t.pc.BarrierWait? || PastBarrier(t.pc) ==> ok)
    && (!ok && (t.pc.UnlockMutex? || t.pc.FailDone? || Leaving(t.pc)) ==> m.firstErr.Some?)
    && (PastBarrier(t.pc) ==> m.barrier == 0)
    && (InLoop(t.pc) ==> m.firstErr.None?)
    && (ok && Leaving(t.pc) ==> m.barrier == 0 && (m.firstErr.Some? || t.k == Rounds(iter)))
    && t.k <= Rounds(iter)
    && (t.pc.Load? || t.pc.Store? ==> t.k < iter)
    && (t.pc.Store? ==> m.signal == Awaited(x))
    && (t.k > 0 ==> InLoop(t.pc) || Leaving(t.pc))
    && (m.firstErr.Some? ==> t.k == 0)
    && (m.firstErr == Some(x) ==> !ok)
  }

  predicate Alternates(stores: seq<Agent>) {
    forall i :: 0 <= i < |stores| ==> stores[i] == if i % 2 == 0 then A else B
  }

  predicate Counted(a: Thread, b: Thread, m: Shared) {
    && m.barrier == (if BarrierOpen(a.pc) then 0 else 1) + (if BarrierOpen(b.pc) then 0 else 1)
    && m.group == (if a.pc.Finished? then 0 else 1) + (if b.pc.Finished? then 0 else 1)
    && m.mutex != Some(Main) && m.firstErr != Some(Main)
    && m.signal == a.k - b.k && 0 <= m.signal <= 1
    && |m.stores| == a.k + b.k
    && Alternates(m.stores)
  }

  predicate Inv(s: State) {
    && ThreadInv(s.iter, s.okA, A, s.a, s.mem)
    && ThreadInv(s.iter, s.okB, B, s.b, s.mem)
    && Counted(s.a, s.b, s.mem)
    && (s.main.Returned? ==> s.mem.group == 0 && s.main.err == s.mem.firstErr)
  }

  predicate CountedFor(x: Agent, t: Thread, u: Thread, m: Shared) {
    if x == A then Counted(t, u, m) else Counted(u, t, m)
  }

  /** Goroutine x is at t and the other, y, at u. */
  predicate Pair(iter: int, ok: bool, okY: bool, x: Agent, y: Agent, t: Thread, u: Thread, m: Shared) {
    && x != Main && y != Main && x != y
    && ThreadInv(iter, ok, x, t, m) && ThreadInv(iter, okY, y, u, m)
    && CountedFor(x, t, u, m)
  }

  lemma {:induction false} OwnInvInLoop(iter: int, ok: bool, x: Agent, t: Thread, m: Shared)
    requires x != Main && ThreadInv(iter, ok, x, t, m) && (InLoop(t.pc) || Leaving(t.pc))
    ensures var (t', m') := Act(iter, ok, x, t, m); ThreadInv(iter, ok, x, t', m')
  {
    match t.pc {
      case LoopHead => case Load => case Store => case GroupDone => case Finished => case _ =>
    }
  }

  lemma {:induction false} OwnInvAtBarrier(iter: int, ok: bool, okY: bool, x: Agent, y: Agent, t: Thread, u: Thread,
      m: Shared)
    requires Pair(iter, ok, okY, x, y, t, u, m)
    requires t.pc.PinnedDone? || t.pc.BarrierWait? || t.pc.ReadErr?
    ensures var (t', m') := Act(iter, ok, x, t, m); ThreadInv(iter, ok, x, t', m')
  {
    match t.pc {
      case PinnedDone => case BarrierWait => case ReadErr => case _ =>
    }
  }

  lemma {:induction false} OwnInvFailing(iter: int, ok: bool, okY: bool, x: Agent, y: Agent, t: Thread, u: Thread,
      m: Shared)
    requires Pair(iter, ok, okY, x, y, t, u, m) && (t.pc.Pin? || FailPath(t.pc))
    ensures var (t', m') := Act(iter, ok, x, t, m); ThreadInv(iter, ok, x, t', m')
  {
    match t.pc {
      case Pin => case LockMutex => case CheckFirst => case SetFirst => case UnlockMutex => case FailDone => case _ =>
    }
  }

  /** Goroutine x acts: its own conditions still hold. The other goroutine, y, is only looked at. */
  lemma {:induction false} OwnInv(iter: int, ok: bool, okY: bool, x: Agent, y: Agent, t: Thread, u: Thread, m: Shared)
    requires Pair(iter, ok, okY, x, y, t, u, m)
    ensures var (t', m') := Act(iter, ok, x, t, m); ThreadInv(iter, ok, x, t', m')
  {
    if InLoop(t.pc) || Leaving(t.pc) {
      OwnInvInLoop(iter, ok, x, t, m);
    } else if t.pc.Pin? || FailPath(t.pc) {
      OwnInvFailing(iter, ok, okY, x, y, t, u, m);
    } else {
      OwnInvAtBarrier(iter, ok, okY, x, y, t, u, m);
    }
  }

  lemma {:induction false} OtherInv(iter: int, ok: bool, okY: bool, x: Agent, y: Agent, t: Thread, u: Thread, m: Shared)
    requires Pair(iter, ok, okY, x, y, t, u, m)
    ensures var (t', m') := Act(iter, ok, x, t, m); ThreadInv(iter, okY, y, u, m')
  {
    match t.pc {
      case Pin => case LockMutex => case CheckFirst => case SetFirst => case UnlockMutex => case FailDone =>
      case PinnedDone => case BarrierWait => case ReadErr => case LoopHead => case Load => case Store =>
      case GroupDone => case Finished =>
    }
  }

  lemma {:induction false} CountedAfterStore(iter: int, ok: bool, x: Agent, t: Thread, u: Thread, m: Shared)
    requires x != Main && ThreadInv(iter, ok, x, t, m) && t.pc.Store? && CountedFor(x, t, u, m)
    ensures var (t', m') := Act(iter, ok, x, t, m); CountedFor(x, t', u, m')
  {
    assert Alternates(m.stores + [x]);
  }

  lemma {:induction false} CountedInMutex(iter: int, ok: bool, x: Agent, t: Thread, u: Thread, m: Shared)
    requires x != Main && CountedFor(x, t, u, m)
    requires t.pc.Pin? || t.pc.LockMutex? || InMutex(t.pc)
    ensures var (t', m') := Act(iter, ok, x, t, m); CountedFor(x, t', u, m')
  {
    match t.pc {
      case Pin => case LockMutex => case CheckFirst => case SetFirst => case UnlockMutex => case _ =>
    }
  }

  lemma {:induction false} CountedAtBarrier(iter: int, ok: bool, x: Agent, t: Thread, u: Thread, m: Shared)
    requires x != Main && CountedFor(x, t, u, m)
    requires t.pc.FailDone? || t.pc.PinnedDone? || t.pc.BarrierWait? || t.pc.ReadErr?
    ensures var (t', m') := Act(iter, ok, x, t, m); CountedFor(x, t', u, m')
  {
    match t.pc {
      case FailDone => case PinnedDone => case BarrierWait => case ReadErr => case _ =>
    }
  }

  lemma {:induction false} CountedAround(iter: int, ok: bool, x: Agent, t: Thread, u: Thread, m: Shared)
    requires x != Main && CountedFor(x, t, u, m)
    requires t.pc.LoopHead? || t.pc.Load? || Leaving(t.pc)
    ensures var (t', m') := Act(iter, ok, x, t, m); CountedFor(x, t', u, m')
  {
    match t.pc {
      case LoopHead => case Load => case GroupDone => case Finished => case _ =>
    }
  }

  lemma {:induction false} CountedInv(iter: int, ok: bool, okY: bool, x: Agent, y: Agent, t: Thread, u: Thread,
      m: Shared)
    requires Pair(iter, ok, okY, x, y, t, u, m)
    ensures var (t', m') := Act(iter, ok, x, t, m); CountedFor(x, t', u, m')
  {
    if t.pc.Store? {
      CountedAfterStore(iter, ok, x, t, u, m);
    } else if t.pc.Pin? || t.pc.LockMutex? || InMutex(t.pc) {
      CountedInMutex(iter, ok, x, t, u, m);
    } else if t.pc.LoopHead? || t.pc.Load? || Leaving(t.pc) {
      CountedAround(iter, ok, x, t, u, m);
    } else {
      CountedAtBarrier(iter, ok, x, t, u, m);
    }
  }

  /** Once both goroutines have left the group nothing changes any more. */
  lemma {:induction false} GroupStays(iter: int, ok: bool, x: Agent, t: Thread, u: Thread, m: Shared)
    requires x != Main && CountedFor(x, t, u, m) && m.group == 0
    ensures Act(iter, ok, x, t, m) == (t, m)
  {
    assert t.pc.Finished?;
  }

  lemma {:induction false} InvStep(s: State, x: Agent)
    requires Inv(s)
    ensures Inv(Step(s, x))
  {
    match x
    case A =>
      OwnInv(s.iter, s.okA, s.okB, A, B, s.a, s.b, s.mem);
      OtherInv(s.iter, s.okA, s.okB, A, B, s.a, s.b, s.mem);
      CountedInv(s.iter, s.okA, s.okB, A, B, s.a, s.b, s.mem);
      if s.main.Returned? {
        GroupStays(s.iter, s.okA, A, s.a, s.b, s.mem);
      }
    case B =>
      OwnInv(s.iter, s.okB, s.okA, B, A, s.b, s.a, s.mem);
      OtherInv(s.iter, s.okB, s.okA, B, A, s.b, s.a, s.mem);
      CountedInv(s.iter, s.okB, s.okA, B, A, s.b, s.a, s.mem);
      if s.main.Returned? {
        GroupStays(s.iter, s.okB, B, s.b, s.a, s.mem);
      }
    case Main =>
  }

  lemma {:induction false} InvRun(s: State, schedule: seq<Agent>)
    requires Inv(s)
    ensures Inv(Run(s, schedule))
    ensures var t := Run(s, schedule); t.iter == s.iter && t.okA == s.okA && t.okB == s.okB
    decreases |schedule|
  {
    if schedule == [] {
    } else {
      InvStep(s, schedule[0]);
      InvRun(Step(s, schedule[0]), schedule[1..]);
    }
  }

  lemma {:induction false} Reachable(iter: int, okA: bool, okB: bool, schedule: seq<Agent>)
    ensures Inv(Run(Init(iter, okA, okB), schedule))
    ensures var s := Run(Init(iter, okA, okB), schedule); s.iter == iter && s.okA == okA && s.okB == okB
  {
    InvRun(Init(iter, okA, okB), schedule);
  }

  // ---------------------------------------------------------------- safety

  lemma {:induction false} CountAlternating(stores: seq<Agent>)
    requires Alternates(stores)
    ensures multiset(stores)[A] == (|stores| + 1) / 2
    ensures multiset(stores)[B] == |stores| / 2
  {
    if stores == [] {
    } else {
      var init, last := stores[..|stores| - 1], stores[|stores| - 1];
      CountAlternating(init);
      assert last == if |init| % 2 == 0 then A else B;
      assert stores == init + [last];
      assert multiset(stores) == multiset(init) + multiset{last};
    }
  }

  /** In every interleaving: the signal is how far A's stores are ahead of B's, 0 or 1; the threads are never
      both between their load and their store; and the stores alternate, A first. */
  lemma {:induction false} HandoffIsExclusive(iter: int, okA: bool, okB: bool, schedule: seq<Agent>)
    ensures var s := Run(Init(iter, okA, okB), schedule);
            && s.mem.signal + multiset(s.mem.stores)[B] == multiset(s.mem.stores)[A]
            && 0 <= s.mem.signal <= 1
            && !(s.a.pc.Store? && s.b.pc.Store?)
            && Alternates(s.mem.stores)
            && !(InMutex(s.a.pc) && InMutex(s.b.pc))
  {
    Reachable(iter, okA, okB, schedule);
    CountAlternating(Run(Init(iter, okA, okB), schedule).mem.stores);
  }

  /** No thread enters the handoff loop once pinning has failed on either side. */
  lemma {:induction false} NoHandoffAfterFailure(iter: int, okA: bool, okB: bool, schedule: seq<Agent>)
    requires !okA || !okB
    ensures var s := Run(Init(iter, okA, okB), schedule);
            !InLoop(s.a.pc) && !InLoop(s.b.pc) && s.mem.stores == [] && s.mem.signal == 0
  {
    Reachable(iter, okA, okB, schedule);
  }

  lemma {:induction false} FirstErrorKept(iter: int, ok: bool, x: Agent, t: Thread, m: Shared)
    requires ThreadInv(iter, ok, x, t, m) && m.firstErr.Some?
    ensures Act(iter, ok, x, t, m).1.firstErr == m.firstErr
  {
    assert !t.pc.SetFirst?;
  }

  /** The first error stays the first: once set it is never replaced. */
  lemma {:induction false} FirstErrorStays(s: State, schedule: seq<Agent>)
    requires Inv(s) && s.mem.firstErr.Some?
    ensures Run(s, schedule).mem.firstErr == s.mem.firstErr
    decreases |schedule|
  {
    if schedule == [] {
    } else {
      FirstErrorKept(s.iter, s.okA, A, s.a, s.mem);
      FirstErrorKept(s.iter, s.okB, B, s.b, s.mem);
      assert Step(s, schedule[0]).mem.firstErr == s.mem.firstErr;
      InvStep(s, schedule[0]);
      FirstErrorStays(Step(s, schedule[0]), schedule[1..]);
    }
  }

  /** What measureSingleLink returns with: an error exactly when some pinning failed, and then one of those
      that did fail; otherwise the full 2 * iter handoffs were made and the signal is back at 0. */
  lemma {:induction false} Outcome(iter: int, okA: bool, okB: bool, schedule: seq<Agent>)
    ensures var s := Run(Init(iter, okA, okB), schedule);
            s.main.Returned? ==>
              && (s.main.err.Some? <==> !okA || !okB)
              && (s.main.err == Some(A) ==> !okA) && (s.main.err == Some(B) ==> !okB) && s.main.err != Some(Main)
              && s.main.err == s.mem.firstErr
              && (s.main.err.None? ==> |s.mem.stores| == (if iter < 0 then 0 else 2 * iter) && s.mem.signal == 0)
              && s.a.pc.Finished? && s.b.pc.Finished?
  {
    Reachable(iter, okA, okB, schedule);
    var err := Run(Init(iter, okA, okB), schedule).mem.firstErr;
    assert err.Some? ==> err.value == A || err.value == B;
  }

  // ---------------------------------------------------------------- progress

  lemma {:induction false} WhenBlocked(iter: int, ok: bool, x: Agent, t: Thread, m: Shared)
    ensures Act(iter, ok, x, t, m) == (t, m) <==>
      || (t.pc.LockMutex? && m.mutex.Some?)
      || (t.pc.BarrierWait? && m.barrier != 0)
      || (t.pc.Load? && m.signal != Awaited(x))
      || t.pc.Finished?
  {
    match t.pc {
      case Pin => case LockMutex => case CheckFirst => case SetFirst => case UnlockMutex => case FailDone =>
      case PinnedDone => case BarrierWait => case ReadErr => case LoopHead => case Load => case Store =>
      case GroupDone => case Finished =>
    }
  }

  /** A step of x that is neither blocked nor a spin. */
  predicate Moves(s: State, x: Agent) { Step(s, x) != s }

  lemma {:induction false} StepWhenBlocked(s: State)
    ensures Step(s, A) == s <==> Act(s.iter, s.okA, A, s.a, s.mem) == (s.a, s.mem)
    ensures Step(s, B) == s <==> Act(s.iter, s.okB, B, s.b, s.mem) == (s.b, s.mem)
  {
    var (t, m) := Act(s.iter, s.okA, A, s.a, s.mem);
    assert Step(s, A) == s.(a := t, mem := m);
    var (u, n) := Act(s.iter, s.okB, B, s.b, s.mem);
    assert Step(s, B) == s.(b := u, mem := n);
  }

  /** While a thread is unfinished one of the two can take a step that is neither blocked nor a spin, even
      when one or both could not be pinned. */
  lemma {:induction false} NoDeadlock(s: State)
    requires Inv(s)
    requires !s.a.pc.Finished? || !s.b.pc.Finished?
    ensures Moves(s, A) || Moves(s, B)
  {
    StepWhenBlocked(s);
    WhenBlocked(s.iter, s.okA, A, s.a, s.mem);
    WhenBlocked(s.iter, s.okB, B, s.b, s.mem);
    assert s.mem.mutex.Some? ==> s.mem.mutex.value == A || s.mem.mutex.value == B;
  }

  function Weight(iter: int, t: Thread): int {
    var total, left := Rounds(iter), Rounds(iter) - t.k;
    match t.pc
    case Pin => 3 * total + 7
    case LockMutex => 6
    case CheckFirst => 5
    case SetFirst => 4
    case UnlockMutex => 3
    case FailDone => 2
    case PinnedDone => 3 * total + 5
    case BarrierWait => 3 * total + 4
    case ReadErr => 3 * total + 3
    case LoopHead => 3 * left + 2
    case Load => 3 * left + 1
    case Store => 3 * left
    case GroupDone => 1
    case Finished => 0
  }

  function Measure(s: State): (m: int)
    ensures Inv(s) ==> m >= 0
  {
    Weight(s.iter, s.a) + Weight(s.iter, s.b) + (if s.main.Waiting? then 1 else 0)
  }

  lemma {:induction false} WeightDescends(iter: int, ok: bool, x: Agent, t: Thread, m: Shared)
    requires ThreadInv(iter, ok, x, t, m)
    ensures Act(iter, ok, x, t, m) == (t, m) || Weight(iter, Act(iter, ok, x, t, m).0) < Weight(iter, t)
  {
    match t.pc {
      case Pin => case LockMutex => case CheckFirst => case SetFirst => case UnlockMutex => case FailDone =>
      case PinnedDone => case BarrierWait => case ReadErr => case LoopHead => case Load => case Store =>
      case GroupDone => case Finished =>
    }
  }

  /** A step changes nothing or brings the end nearer, so only a bounded number of steps change anything. */
  lemma {:induction false} StepsDescend(s: State, x: Agent)
    requires Inv(s)
    ensures Step(s, x) == s || Measure(Step(s, x)) < Measure(s)
  {
    match x
    case A => WeightDescends(s.iter, s.okA, A, s.a, s.mem);
    case B => WeightDescends(s.iter, s.okB, B, s.b, s.mem);
    case Main =>
  }

  lemma {:induction false} SomeoneMoves(s: State) returns (x: Agent)
    requires Inv(s) && s.main.Waiting?
    ensures Moves(s, x)
  {
    if s.a.pc.Finished? && s.b.pc.Finished? {
      x := Main;
    } else {
      NoDeadlock(s);
      x := if Moves(s, A) then A else B;
    }
  }

  // ---------------------------------------------------------------- termination under fairness

  /** measureSingleLink returns under every fair scheduler, for every iteration count and whichever pinnings
      fail: spinning threads cannot keep each other from finishing. */
  lemma {:induction false} AlwaysReturns(iter: int, okA: bool, okB: bool, f: Scheduler<Agent>)
    requires Fair(f)
    ensures exists n: nat :: StateAt(Step, Init(iter, okA, okB), f, n).main.Returned?
  {
    var returned := (s: State) => s.main.Returned?;
    forall s, x | Inv(s) ensures Inv(Step(s, x)) && (Step(s, x) == s || Measure(Step(s, x)) < Measure(s)) {
      InvStep(s, x);
      StepsDescend(s, x);
    }
    forall s | Inv(s) && !returned(s) ensures exists x :: Step(s, x) != s {
      var x := SomeoneMoves(s);
      assert Moves(s, x);
    }
    var end := ReachesGoal(Step, Inv, Measure, returned, Init(iter, okA, okB), f, 0);
  }
}
