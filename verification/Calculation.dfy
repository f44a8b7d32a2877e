/** Overlapping ranking calculations. CalculateRanking waits for its Update with a timeout, but the Update
    goroutine outlives the wait and may still commit; meanwhile other calculations run and CPUs are requested.
    Steps are atomic exactly where the allocator's lock is held. */
module Calculation {
  import opened Collections
  import opened Ranking
  import opened Allocator
  import opened Wrappers

  /** What one Update will see: the detector's answer and the measurer's. */
  datatype Input = Input(detected: Option<seq<CoreInfo>>, m: Measurer, rounds: nat)

  datatype Phase = Computing | Committed | Failed

  datatype Outcome = Nil | UpdateFailed | TimedOut | NoRanking

  /** CalculateRanking: at its select, past it and about to read the ranking, or back at its caller. */
  datatype Caller = AtSelect | Reading | Returned(outcome: Outcome)

  datatype Calc = Calc(input: Input, phase: Phase, caller: Caller)

  /** Calculations are numbered in the order they start; commits lists those that committed, in that order. */
  datatype State = State(alloc: Alloc, calcs: seq<Calc>, commits: seq<nat>)

  datatype Label =
    | Start(input: Input)
    | Publish(id: nat, rankings: seq<CoreRanking>)
    | Fail(id: nat)
    | Timeout(id: nat)
    | Deliver(id: nat)
    | Read(id: nat)
    | Request(vm: int, k: int)

  function Init(): State { State(Empty(), [], []) }

  predicate WellFormed(input: Input) {
    input.rounds > 0 && (input.detected.Some? ==> DistinctCpus(input.detected.value))
  }

  ghost predicate Succeeds(input: Input) {
    input.detected.Some? && MeasuredBefore(input.m, |input.detected.value|, input.rounds, 0, 0)
  }

  ghost predicate Enabled(s: State, l: Label) {
    match l
    case Start(input) => WellFormed(input)
    case Publish(id, rankings) =>
      && id < |s.calcs| && s.calcs[id].phase.Computing?
      && var input := s.calcs[id].input;
         input.rounds > 0 && Succeeds(input) && Published(rankings, input.detected.value, input.m, input.rounds)
    case Fail(id) => id < |s.calcs| && s.calcs[id].phase.Computing? && !Succeeds(s.calcs[id].input)
    case Timeout(id) => id < |s.calcs| && s.calcs[id].caller.AtSelect?
    case Deliver(id) => id < |s.calcs| && s.calcs[id].caller.AtSelect? && !s.calcs[id].phase.Computing?
    case Read(id) => id < |s.calcs| && s.calcs[id].caller.Reading?
    case Request(_, _) => true
  }

  ghost function Next(s: State, l: Label): State
    requires Enabled(s, l)
  {
    match l
    case Start(input) => s.(calcs := s.calcs + [Calc(input, Computing, AtSelect)])
    case Publish(id, rankings) =>
      s.(alloc := Commit(s.alloc, rankings), calcs := s.calcs[id := s.calcs[id].(phase := Committed)],
         commits := s.commits + [id])
    case Fail(id) => s.(calcs := s.calcs[id := s.calcs[id].(phase := Failed)])
    case Timeout(id) => s.(calcs := s.calcs[id := s.calcs[id].(caller := Returned(TimedOut))])
    case Deliver(id) =>
      var caller := if s.calcs[id].phase.Failed? then Returned(UpdateFailed) else Reading;
      s.(calcs := s.calcs[id := s.calcs[id].(caller := caller)])
    case Read(id) =>
      var outcome := if s.alloc.cache == [] then NoRanking else Nil;
      s.(calcs := s.calcs[id := s.calcs[id].(caller := Returned(outcome))])
    case Request(vm, k) => s.(alloc := Select(s.alloc, vm, k).0)
  }

  ghost predicate CanRun(s: State, ls: seq<Label>)
    decreases |ls|
  {
    ls == [] || (Enabled(s, ls[0]) && CanRun(Next(s, ls[0]), ls[1..]))
  }

  ghost function After(s: State, ls: seq<Label>): State
    requires CanRun(s, ls)
    decreases |ls|
  {
    if ls == [] then s else After(Next(s, ls[0]), ls[1..])
  }

  lemma RunCons(s: State, l: Label, ls: seq<Label>)
    requires Enabled(s, l) && CanRun(Next(s, l), ls)
    ensures CanRun(s, [l] + ls) && After(s, [l] + ls) == After(Next(s, l), ls)
  {
    assert ([l] + ls)[1..] == ls;
  }

  // ---------------------------------------------------------------- the invariant

  ghost predicate CalcInv(s: State, id: nat)
    requires id < |s.calcs|
  {
    var c := s.calcs[id];
    && WellFormed(c.input)
    && (c.phase.Committed? <==> id in s.commits)
    && (c.phase.Committed? ==> Succeeds(c.input))
    && (c.phase.Failed? ==> !Succeeds(c.input))
    && (c.caller.Reading? || c.caller == Returned(Nil) || c.caller == Returned(NoRanking) ==> c.phase.Committed?)
    && (c.caller == Returned(UpdateFailed) ==> c.phase.Failed?)
  }

  /** The cache is what the calculation that committed last published. */
  ghost predicate FromLastCommit(s: State) {
    if s.commits == [] then s.alloc.cache == []
    else
      var last := s.commits[|s.commits| - 1];
      && last < |s.calcs|
      && var input := s.calcs[last].input;
         input.detected.Some? && input.rounds > 0 &&
         Published(s.alloc.cache, input.detected.value, input.m, input.rounds)
  }

  ghost predicate Inv(s: State) {
    && Allocator.Inv(s.alloc)
    && (forall id :: 0 <= id < |s.calcs| ==> CalcInv(s, id))
    && (forall c :: c in s.commits ==> c < |s.calcs|)
    && Distinct(s.commits)
    && FromLastCommit(s)
  }

  lemma CalcsKept(s: State, t: State)
    requires forall id :: 0 <= id < |s.calcs| ==> CalcInv(s, id)
    requires t.commits == s.commits && |s.calcs| <= |t.calcs| <= |s.calcs| + 1
    requires forall c :: c in s.commits ==> c < |s.calcs|
    requires forall id :: 0 <= id < |s.calcs| && t.calcs[id] != s.calcs[id] ==> CalcInv(t, id)
    requires forall id :: |s.calcs| <= id < |t.calcs| ==>
               WellFormed(t.calcs[id].input) && t.calcs[id].phase.Computing? && t.calcs[id].caller.AtSelect?
    ensures forall id :: 0 <= id < |t.calcs| ==> CalcInv(t, id)
  {
    forall id | 0 <= id < |t.calcs| ensures CalcInv(t, id) {
      if id < |s.calcs| {
        assert CalcInv(s, id);
      }
    }
  }

  lemma {:induction false} PublishKeepsInv(s: State, id: nat, rankings: seq<CoreRanking>)
    requires Inv(s) && Enabled(s, Publish(id, rankings))
    ensures Inv(Next(s, Publish(id, rankings)))
  {
    var t := Next(s, Publish(id, rankings));
    var input := s.calcs[id].input;
    assert CalcInv(s, id);
    PublishedIsValid(rankings, input.detected.value, input.m, input.rounds);
    CommitKeepsInv(s.alloc, rankings);
    assert t.commits[|t.commits| - 1] == id;
    forall k | 0 <= k < |t.calcs| ensures CalcInv(t, k) {
      assert CalcInv(s, k);
      assert k in t.commits <==> k in s.commits || k == id;
    }
  }

  lemma {:induction false} CallerStepKeepsInv(s: State, l: Label)
    requires Inv(s) && Enabled(s, l) && !l.Publish? && !l.Request?
    ensures Inv(Next(s, l))
  {
    var t := Next(s, l);
    assert t.alloc == s.alloc && t.commits == s.commits;
    match l {
      case Start(input) =>
      case Fail(id) => assert CalcInv(s, id);
      case Timeout(id) => assert CalcInv(s, id);
      case Deliver(id) => assert CalcInv(s, id);
      case Read(id) => assert CalcInv(s, id);
      case _ =>
    }
    CalcsKept(s, t);
    assert FromLastCommit(t);
  }

  lemma {:induction false} RequestKeepsInv(s: State, vm: int, k: int)
    requires Inv(s)
    ensures Inv(Next(s, Request(vm, k)))
  {
    var t := Next(s, Request(vm, k));
    SelectKeepsInv(s.alloc, vm, k);
    assert t.alloc.cache == s.alloc.cache;
    CalcsKept(s, t);
  }

  lemma {:induction false} InvStep(s: State, l: Label)
    requires Inv(s) && Enabled(s, l)
    ensures Inv(Next(s, l))
  {
    match l {
      case Publish(id, rankings) => PublishKeepsInv(s, id, rankings);
      case Request(vm, k) => RequestKeepsInv(s, vm, k);
      case _ => CallerStepKeepsInv(s, l);
    }
  }

  lemma {:induction false} InvRun(s: State, ls: seq<Label>)
    requires Inv(s) && CanRun(s, ls)
    ensures Inv(After(s, ls))
    decreases |ls|
  {
    if ls == [] {
    } else {
      InvStep(s, ls[0]);
      InvRun(Next(s, ls[0]), ls[1..]);
    }
  }

  /** Requests, commits, timeouts and late commits in any order: the cursor is in range, every row lists the
      other cores nearest first, every stored selection comes from a row of the cache it stands beside, and
      the cache is the complete ranking of one calculation, the last to commit. */
  lemma {:induction false} AllocatorSurvivesOverlap(ls: seq<Label>)
    requires CanRun(Init(), ls)
    ensures Inv(After(Init(), ls))
  {
    InvRun(Init(), ls);
  }

  /** What CalculateRanking's answer tells its caller: nil only after its own ranking was committed, an update
      error only if nothing was or will be, and nothing at all when it timed out. */
  lemma {:induction false} OutcomeMeans(ls: seq<Label>, id: nat)
    requires CanRun(Init(), ls) && id < |After(Init(), ls).calcs|
    ensures var s := After(Init(), ls); var c := s.calcs[id];
            && (c.caller == Returned(Nil) ==> id in s.commits && Succeeds(c.input))
            && (c.caller == Returned(UpdateFailed) ==> id !in s.commits && !Succeeds(c.input))
            && (id in s.commits ==> Succeeds(c.input) && multiset(s.commits)[id] == 1)
  {
    AllocatorSurvivesOverlap(ls);
    assert CalcInv(After(Init(), ls), id);
    DistinctMultiset(After(Init(), ls).commits, id);
  }

  /** Which of the two answers a caller gets that reads the ranking after its own update: nil if the topology of the
      calculation that committed last has a core, else that there is no ranking. */
  lemma {:induction false} ReadAnswers(s: State, id: nat)
    requires Inv(s) && Enabled(s, Read(id))
    ensures s.commits != [] && s.commits[|s.commits| - 1] < |s.calcs|
    ensures var last := s.calcs[s.commits[|s.commits| - 1]].input.detected;
            && last.Some?
            && Next(s, Read(id)).calcs[id].caller == Returned(if last.value == [] then NoRanking else Nil)
  {
    assert CalcInv(s, id);
    assert s.commits[|s.commits| - 1] in s.commits;
  }

  /** And which a caller gets whose update has ended in time: an error exactly if its detector or one of its
      measurements failed; otherwise it goes on to read the ranking. */
  lemma {:induction false} DeliverAnswers(s: State, id: nat)
    requires Inv(s) && Enabled(s, Deliver(id))
    ensures var caller := Next(s, Deliver(id)).calcs[id].caller;
            && (caller == Returned(UpdateFailed) <==> !Succeeds(s.calcs[id].input))
            && (caller == Reading <==> Succeeds(s.calcs[id].input))
  {
    assert CalcInv(s, id);
  }

  ghost predicate CommittedEmpty(s: State) {
    exists c :: c in s.commits && c < |s.calcs| && s.calcs[c].input.detected == Some([])
  }

  ghost predicate ToldNoRanking(s: State) {
    exists id :: 0 <= id < |s.calcs| && s.calcs[id].caller == Returned(NoRanking)
  }

  lemma {:induction false} NoRankingStep(s: State, l: Label)
    requires Inv(s) && Enabled(s, l)
    requires ToldNoRanking(s) ==> CommittedEmpty(s)
    ensures ToldNoRanking(Next(s, l)) ==> CommittedEmpty(Next(s, l))
  {
    var t := Next(s, l);
    if CommittedEmpty(s) {
      var c :| c in s.commits && c < |s.calcs| && s.calcs[c].input.detected == Some([]);
      assert c in t.commits && t.calcs[c].input == s.calcs[c].input;
    } else if l.Read? {
      ReadAnswers(s, l.id);
      var last := s.commits[|s.commits| - 1];
      assert last in t.commits && t.calcs[last].input == s.calcs[last].input;
    }
  }

  lemma {:induction false} NoRankingRun(s: State, ls: seq<Label>)
    requires Inv(s) && CanRun(s, ls)
    requires ToldNoRanking(s) ==> CommittedEmpty(s)
    ensures ToldNoRanking(After(s, ls)) ==> CommittedEmpty(After(s, ls))
    decreases |ls|
  {
    if ls == [] {
    } else {
      NoRankingStep(s, ls[0]);
      InvStep(s, ls[0]);
      NoRankingRun(Next(s, ls[0]), ls[1..]);
    }
  }

  /** No caller is ever told that there is no ranking unless some detector has found a machine without CPUs. */
  lemma {:induction false} NoRankingOnlyWithoutCpus(ls: seq<Label>)
    requires CanRun(Init(), ls)
    ensures ToldNoRanking(After(Init(), ls)) ==> CommittedEmpty(After(Init(), ls))
  {
    NoRankingRun(Init(), ls);
  }

  // ---------------------------------------------------------------- the allocator's view

  /** The critical sections a run of the system performs, in order. */
  function Sections(ls: seq<Label>): seq<Op> {
    if ls == [] then []
    else
      (match ls[0]
       case Publish(_, rankings) => [CommitOp(rankings)]
       case Request(vm, k) => [SelectOp(vm, k)]
       case _ => [])
      + Sections(ls[1..])
  }

  /** Every interleaving is, for the allocator, one sequence of whole critical sections with valid rankings; so
      what holds for all such sequences (fair rotation, sticking selections) holds here. */
  lemma {:induction false} Linearizes(s: State, ls: seq<Label>)
    requires Inv(s) && CanRun(s, ls)
    ensures After(s, ls).alloc == Run(s.alloc, Sections(ls))
    ensures forall i :: 0 <= i < |Sections(ls)| ==> ValidOp(Sections(ls)[i])
    decreases |ls|
  {
    if ls == [] {
    } else {
      InvStep(s, ls[0]);
      Linearizes(Next(s, ls[0]), ls[1..]);
      match ls[0] {
        case Publish(id, rankings) =>
          var input := s.calcs[id].input;
          assert CalcInv(s, id);
          PublishedIsValid(rankings, input.detected.value, input.m, input.rounds);
          assert Sections(ls) == [CommitOp(rankings)] + Sections(ls[1..]);
        case Request(vm, k) =>
          assert Sections(ls) == [SelectOp(vm, k)] + Sections(ls[1..]);
        case _ =>
          assert Sections(ls) == Sections(ls[1..]);
      }
    }
  }

  lemma {:induction false} SectionsKeepSize(s: State, ls: seq<Label>, n: nat)
    requires CanRun(s, ls)
    requires forall i :: 0 <= i < |ls| && ls[i].Publish? ==> |ls[i].rankings| == n
    ensures forall i :: 0 <= i < |Sections(ls)| ==> KeepsSize(Sections(ls)[i], n)
    decreases |ls|
  {
    if ls == [] {
    } else {
      SectionsKeepSize(Next(s, ls[0]), ls[1..], n);
    }
  }

  /** Rotation is fair in every interleaving that keeps the core count, late commits included: each row is the
      primary of floor(m / n) or ceil(m / n) of the m allocations. */
  lemma {:induction false} RowsFairUnderOverlap(s: State, ls: seq<Label>, n: nat, row: nat)
    requires Inv(s) && CanRun(s, ls) && |s.alloc.cache| == n && row < n
    requires forall i :: 0 <= i < |ls| && ls[i].Publish? ==> |ls[i].rankings| == n
    ensures Evenly(Primaries(s.alloc, Sections(ls)), n, row)
  {
    SectionsKeepSize(s, ls, n);
    EveryRowGetsItsTurn(s.alloc, Sections(ls), n, row);
  }

  lemma {:induction false} SectionsKeepSources(s: State, ls: seq<Label>, cpus: seq<int>)
    requires CanRun(s, ls)
    requires forall i :: 0 <= i < |ls| && ls[i].Publish? ==> Sources(ls[i].rankings) == cpus
    ensures forall i :: 0 <= i < |Sections(ls)| ==> KeepsSources(Sections(ls)[i], cpus)
    decreases |ls|
  {
    if ls == [] {
    } else {
      SectionsKeepSources(Next(s, ls[0]), ls[1..], cpus);
    }
  }

  /** And every CPU comes first in its fair share of the answers, as long as the machine keeps its CPUs. */
  lemma {:induction false} FairUnderOverlap(s: State, ls: seq<Label>, cpu: int)
    requires Inv(s) && CanRun(s, ls) && cpu in Elements(Sources(s.alloc.cache))
    requires forall i :: 0 <= i < |ls| && ls[i].Publish? ==> Sources(ls[i].rankings) == Sources(s.alloc.cache)
    ensures s.alloc.cache != [] && Evenly(FirstCpus(s.alloc, Sections(ls)), |s.alloc.cache|, cpu)
  {
    SectionsKeepSources(s, ls, Sources(s.alloc.cache));
    EveryCpuGetsItsTurn(s.alloc, Sections(ls), cpu);
  }

  // ---------------------------------------------------------------- freshness

  /** The cache holds the ranking of the calculation that started last among those that have committed. */
  ghost predicate Freshest(s: State) {
    s.commits != [] ==> forall c :: c in s.commits ==> c <= s.commits[|s.commits| - 1]
  }

  lemma {:induction false} FreshAfterPublish(s: State, id: nat, rankings: seq<CoreRanking>)
    requires Inv(s) && Enabled(s, Publish(id, rankings))
    ensures Freshest(Next(s, Publish(id, rankings))) <==> forall c :: c in s.commits ==> c < id
  {
    var t := Next(s, Publish(id, rankings));
    assert CalcInv(s, id);
    assert id !in s.commits;
    assert t.commits[|t.commits| - 1] == id;
    forall c ensures c in t.commits <==> c in s.commits || c == id {}
  }

  ghost predicate NoneComputing(s: State) {
    forall id :: 0 <= id < |s.calcs| ==> !s.calcs[id].phase.Computing?
  }

  ghost predicate OnlyNewestComputes(s: State) {
    forall id :: 0 <= id < |s.calcs| - 1 ==> !s.calcs[id].phase.Computing?
  }

  /** Every calculation of the run starts while none is computing: the last one answered, or if it timed out its
      abandoned update has ended. */
  ghost predicate StartsAlone(s: State, ls: seq<Label>)
    requires CanRun(s, ls)
    decreases |ls|
  {
    ls == [] || ((ls[0].Start? ==> NoneComputing(s)) && StartsAlone(Next(s, ls[0]), ls[1..]))
  }

  lemma {:induction false} FreshStep(s: State, l: Label)
    requires Inv(s) && Enabled(s, l) && Freshest(s) && OnlyNewestComputes(s)
    requires l.Start? ==> NoneComputing(s)
    ensures Freshest(Next(s, l)) && OnlyNewestComputes(Next(s, l))
  {
    if l.Publish? {
      assert CalcInv(s, l.id);
      FreshAfterPublish(s, l.id, l.rankings);
    }
  }

  /** Calculations that start one after another never leave an old ranking in the cache, whatever requests,
      failures and timeouts come between. */
  lemma {:induction false} FreshWhenStartedAlone(s: State, ls: seq<Label>)
    requires Inv(s) && Freshest(s) && OnlyNewestComputes(s)
    requires CanRun(s, ls) && StartsAlone(s, ls)
    ensures Freshest(After(s, ls)) && OnlyNewestComputes(After(s, ls))
    decreases |ls|
  {
    if ls == [] {
    } else {
      FreshStep(s, ls[0]);
      InvStep(s, ls[0]);
      FreshWhenStartedAlone(Next(s, ls[0]), ls[1..]);
    }
  }

  /** Calculation i is still on its way to a commit, and j, which started later, has committed or will. */
  ghost predicate Overtaken(s: State, i: nat, j: nat) {
    && i < j < |s.calcs|
    && s.calcs[i].phase.Computing? && Succeeds(s.calcs[i].input)
    && (s.calcs[j].phase.Committed? || (s.calcs[j].phase.Computing? && Succeeds(s.calcs[j].input)))
  }

  ghost predicate SomeOvertaken(s: State) {
    exists i: nat, j: nat :: Overtaken(s, i, j)
  }

  /** A continuation, with no further calculation started, that ends with an old ranking in the cache. */
  ghost predicate EndsStale(s: State, ls: seq<Label>) {
    CanRun(s, ls) && (forall k :: 0 <= k < |ls| ==> !ls[k].Start?) && !Freshest(After(s, ls))
  }

  lemma {:induction false} NoneOvertakenStep(s: State, l: Label)
    requires Inv(s) && Enabled(s, l) && !l.Start? && Freshest(s) && !SomeOvertaken(s)
    ensures Freshest(Next(s, l)) && !SomeOvertaken(Next(s, l))
  {
    var t := Next(s, l);
    if l.Publish? {
      forall c | c in s.commits ensures c < l.id {
        assert CalcInv(s, c) && CalcInv(s, l.id);
        assert !Overtaken(s, l.id, c);
      }
      FreshAfterPublish(s, l.id, l.rankings);
    }
    forall i: nat, j: nat ensures !Overtaken(t, i, j) {
      assert !Overtaken(s, i, j);
    }
  }

  lemma {:induction false} NoneOvertakenRun(s: State, ls: seq<Label>)
    requires Inv(s) && CanRun(s, ls) && Freshest(s) && !SomeOvertaken(s)
    requires forall k :: 0 <= k < |ls| ==> !ls[k].Start?
    ensures Freshest(After(s, ls))
    decreases |ls|
  {
    if ls == [] {
    } else {
      assert !ls[0].Start?;
      NoneOvertakenStep(s, ls[0]);
      InvStep(s, ls[0]);
      NoneOvertakenRun(Next(s, ls[0]), ls[1..]);
    }
  }

  lemma {:induction false} CanPublish(s: State, id: nat) returns (rankings: seq<CoreRanking>)
    requires Inv(s) && id < |s.calcs| && s.calcs[id].phase.Computing? && Succeeds(s.calcs[id].input)
    ensures Enabled(s, Publish(id, rankings))
  {
    assert CalcInv(s, id);
    var input := s.calcs[id].input;
    rankings := SomePublished(input.detected.value, input.m, input.rounds);
  }

  lemma {:induction false} OvertakenEndsStale(s: State, i: nat, j: nat) returns (ls: seq<Label>)
    requires Inv(s) && Overtaken(s, i, j)
    ensures EndsStale(s, ls)
    decreases s.calcs[j].phase.Computing?
  {
    if s.calcs[j].phase.Committed? {
      assert CalcInv(s, j);
      var older := CanPublish(s, i);
      FreshAfterPublish(s, i, older);
      RunCons(s, Publish(i, older), []);
      ls := [Publish(i, older)];
    } else {
      var newer := CanPublish(s, j);
      var t := Next(s, Publish(j, newer));
      InvStep(s, Publish(j, newer));
      var rest := OvertakenEndsStale(t, i, j);
      RunCons(s, Publish(j, newer), rest);
      ls := [Publish(j, newer)] + rest;
    }
  }

  /** Exactly when the cache can end up old: some calculation is computing, and will succeed, that a later one
      has overtaken or still can. */
  lemma {:induction false} StaleExactlyWhenOvertaken(s: State)
    requires Inv(s) && Freshest(s)
    ensures (exists ls :: EndsStale(s, ls)) <==> SomeOvertaken(s)
  {
    if SomeOvertaken(s) {
      var i: nat, j: nat :| Overtaken(s, i, j);
      var ls := OvertakenEndsStale(s, i, j);
    } else {
      forall ls: seq<Label> | CanRun(s, ls) && forall k :: 0 <= k < |ls| ==> !ls[k].Start?
        ensures Freshest(After(s, ls))
      {
        NoneOvertakenRun(s, ls);
      }
    }
  }

  function SomeMachine(cpu: int): Input {
    Input(Some([CoreInfo(cpu, 0, 0)]), (r, i, j) => None, 1)
  }

  const SEVEN := SomeMachine(7)
  const EIGHT := SomeMachine(8)
  const ON_SEVEN := [CoreRanking(7, [])]
  const ON_EIGHT := [CoreRanking(8, [])]

  /** Two calculations: the first is given up, the second answers, then the first commits. */
  const OVERTAKING_STEPS: seq<Label> := [Publish(1, ON_EIGHT), Deliver(1), Read(1), Publish(0, ON_SEVEN)]
  const OVERTAKEN_RUN: seq<Label> := [Start(SEVEN), Timeout(0), Start(EIGHT)] + OVERTAKING_STEPS

  const BOTH_COMPUTING :=
    State(Empty(), [Calc(SEVEN, Computing, Returned(TimedOut)), Calc(EIGHT, Computing, AtSelect)], [])
  const BOTH_COMMITTED :=
    State(Alloc(ON_SEVEN, 0, map[]),
          [Calc(SEVEN, Committed, Returned(TimedOut)), Calc(EIGHT, Committed, Returned(Nil))], [1, 0])

  lemma PublishableOnOneCpu()
    ensures Succeeds(SEVEN) && Succeeds(EIGHT)
    ensures Published(ON_SEVEN, SEVEN.detected.value, SEVEN.m, 1)
    ensures Published(ON_EIGHT, EIGHT.detected.value, EIGHT.m, 1)
  {}

  lemma {:induction false} OvertakingRuns()
    ensures CanRun(BOTH_COMPUTING, OVERTAKING_STEPS) && After(BOTH_COMPUTING, OVERTAKING_STEPS) == BOTH_COMMITTED
  {
    PublishableOnOneCpu();
    var s4 := Next(BOTH_COMPUTING, Publish(1, ON_EIGHT));
    assert s4.calcs == [Calc(SEVEN, Computing, Returned(TimedOut)), Calc(EIGHT, Committed, AtSelect)];
    var s5 := Next(s4, Deliver(1));
    var s6 := Next(s5, Read(1));
    assert s6.calcs == [Calc(SEVEN, Computing, Returned(TimedOut)), Calc(EIGHT, Committed, Returned(Nil))];
    assert Next(s6, Publish(0, ON_SEVEN)) == BOTH_COMMITTED;
    RunCons(s6, Publish(0, ON_SEVEN), []);
    RunCons(s5, Read(1), [Publish(0, ON_SEVEN)]);
    RunCons(s4, Deliver(1), [Read(1), Publish(0, ON_SEVEN)]);
    RunCons(BOTH_COMPUTING, Publish(1, ON_EIGHT), [Deliver(1), Read(1), Publish(0, ON_SEVEN)]);
  }

  /** A calculation that timed out replaces the ranking of one that started after it and finished in time. */
  lemma {:induction false} LateCommitReplacesNewerRanking()
    ensures CanRun(Init(), OVERTAKEN_RUN) && After(Init(), OVERTAKEN_RUN) == BOTH_COMMITTED
    ensures !Freshest(BOTH_COMMITTED)
  {
    OvertakingRuns();
    var s1 := Next(Init(), Start(SEVEN));
    var s2 := Next(s1, Timeout(0));
    assert Next(s2, Start(EIGHT)) == BOTH_COMPUTING;
    RunCons(s2, Start(EIGHT), OVERTAKING_STEPS);
    RunCons(s1, Timeout(0), [Start(EIGHT)] + OVERTAKING_STEPS);
    RunCons(Init(), Start(SEVEN), [Timeout(0)] + ([Start(EIGHT)] + OVERTAKING_STEPS));
    assert OVERTAKEN_RUN == [Start(SEVEN)] + ([Timeout(0)] + ([Start(EIGHT)] + OVERTAKING_STEPS));
    assert 1 in BOTH_COMMITTED.commits;
  }
}
