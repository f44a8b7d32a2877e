/** What the CPU allocator's critical sections do, on the values of its fields, and what holds over every
    sequence of them. */
module Allocator {
  import opened Collections
  import opened Ranking
  import opened Modular
  import opened Wrappers

  datatype Alloc = Alloc(cache: seq<CoreRanking>, lastIndex: nat, selections: map<int, seq<int>>)

  datatype SelectError = CacheEmpty | NotPositive | TooMany(requested: int, available: nat)

  function Empty(): Alloc { Alloc([], 0, map[]) }

  function Least(a: int, b: int): int { if a < b then a else b }

  /** A row's own CPU followed by its k - 1 nearest neighbours. */
  function Pick(row: CoreRanking, k: nat): seq<int>
    requires k > 0
  {
    [row.cpu] + Cpus(row.ranking[..Least(k - 1, |row.ranking|)])
  }

  predicate Sticky(a: Alloc, vm: int, k: int) {
    a.cache != [] && vm in a.selections && |a.selections[vm]| == k
  }

  /** The request gets a new selection: it is well formed and there is none of its size to return. */
  predicate Allocates(a: Alloc, vm: int, k: int) {
    a.cache != [] && !Sticky(a, vm, k) && 0 < k <= |a.cache|
  }

  function NextIndex(a: Alloc): nat
    requires a.cache != []
  {
    (a.lastIndex + 1) % |a.cache|
  }

  /** The body of SelectCPUs, branch by branch. */
  function Select(a: Alloc, vm: int, k: int): (Alloc, Result<seq<int>, SelectError>) {
    if a.cache == [] then (a, Err(CacheEmpty))
    else if vm in a.selections && |a.selections[vm]| == k then (a, Ok(a.selections[vm]))
    else if k <= 0 then (a, Err(NotPositive))
    else if k > |a.cache| then (a, Err(TooMany(k, |a.cache|)))
    else
      var picked := Pick(a.cache[NextIndex(a)], k);
      (a.(lastIndex := NextIndex(a), selections := a.selections[vm := picked]), Ok(picked))
  }

  /** The critical section at the end of Update. */
  function Commit(a: Alloc, rankings: seq<CoreRanking>): Alloc {
    Alloc(rankings, if rankings == [] then 0 else a.lastIndex % |rankings|, map[])
  }

  // ---------------------------------------------------------------- the invariant

  /** The selection is what some row of the current cache gives for its size. */
  predicate FromRow(c: seq<CoreRanking>, s: seq<int>) {
    0 < |s| <= |c| && exists i :: 0 <= i < |c| && s == Pick(c[i], |s|)
  }

  ghost predicate Inv(a: Alloc) {
    && ValidRankings(a.cache)
    && (if a.cache == [] then a.lastIndex == 0 else a.lastIndex < |a.cache|)
    && forall vm :: vm in a.selections ==> FromRow(a.cache, a.selections[vm])
  }

  lemma {:induction false} PickedSelection(c: seq<CoreRanking>, i: nat, k: nat)
    requires ValidRankings(c) && i < |c| && 0 < k <= |c|
    ensures var s := Pick(c[i], k);
            && |s| == k && s[0] == c[i].cpu
            && Distinct(s)
            && Elements(s) <= Elements(Sources(c))
            && FromRow(c, s)
  {
    RowLength(c, i);
    assert ValidRow(c, i);
    var s := Pick(c[i], k);
    var all := Cpus(c[i].ranking);
    forall q | 1 <= q < |s| ensures s[q] == all[q - 1] && s[q] in Elements(all) {}
    assert Sources(c)[i] == c[i].cpu;
  }

  lemma {:induction false} SelectKeepsInv(a: Alloc, vm: int, k: int)
    requires Inv(a)
    ensures Inv(Select(a, vm, k).0)
  {
    if Allocates(a, vm, k) {
      PickedSelection(a.cache, NextIndex(a), k);
    }
  }

  lemma {:induction false} CommitKeepsInv(a: Alloc, rankings: seq<CoreRanking>)
    requires ValidRankings(rankings)
    ensures Inv(Commit(a, rankings))
  {}

  /** Which requests succeed, and with what: exactly k distinct CPUs of the current topology. A request for no
      or fewer CPUs always fails, in spite of the early return from the cache, since no stored selection is
      empty. */
  lemma {:induction false} SelectResult(a: Alloc, vm: int, k: int)
    requires Inv(a)
    ensures var (b, r) := Select(a, vm, k);
            && (r.Ok? <==> 0 < k <= |a.cache|)
            && (r.Ok? ==> |r.value| == k && Distinct(r.value) && Elements(r.value) <= Elements(Sources(a.cache)))
            && (r.Ok? ==> vm in b.selections && b.selections[vm] == r.value)
            && (r.Err? ==> b == a)
            && (forall w :: w != vm ==> (w in b.selections <==> w in a.selections)
                                        && (w in a.selections ==> b.selections[w] == a.selections[w]))
  {
    if vm in a.selections {
      var s := a.selections[vm];
      assert FromRow(a.cache, s);
      var i :| 0 <= i < |a.cache| && s == Pick(a.cache[i], |s|);
      PickedSelection(a.cache, i, |s|);
    }
    if Allocates(a, vm, k) {
      PickedSelection(a.cache, NextIndex(a), k);
    }
  }

  /** What a request is told, from the fields alone. Refusals: no ranking yet, a size that is not positive, or more
      CPUs than there are, in this order. A request that is not answered from what is stored gets the CPU of the row
      after the cursor and then that row's neighbours in the row's own order. */
  lemma {:induction false} SelectAnswers(a: Alloc, vm: int, k: int)
    requires Inv(a)
    ensures var (b, r) := Select(a, vm, k);
            && (r == Err(CacheEmpty) <==> a.cache == [])
            && (r == Err(NotPositive) <==> a.cache != [] && k <= 0)
            && (r == Err(TooMany(k, |a.cache|)) <==> a.cache != [] && k > |a.cache|)
            && (r.Ok? && !(vm in a.selections && |a.selections[vm]| == k) ==>
                  && |a.cache| > 0 && |r.value| == k
                  && var row := a.cache[(a.lastIndex + 1) % |a.cache|];
                     && b.lastIndex == (a.lastIndex + 1) % |a.cache|
                     && k - 1 <= |row.ranking| && r.value[0] == row.cpu
                     && forall q :: 1 <= q < k ==> r.value[q] == row.ranking[q - 1].cpu)
            && (r.Ok? && vm in a.selections && |a.selections[vm]| == k ==> r.value == a.selections[vm] && b == a)
  {
    if vm in a.selections {
      assert FromRow(a.cache, a.selections[vm]);
    }
    if Allocates(a, vm, k) {
      RowLength(a.cache, NextIndex(a));
    }
  }

  /** A commit forgets the selections, and rotation goes on where it was, modulo the new number of rows, whether the
      machine grew, shrank or stayed. */
  lemma {:induction false} RotationGoesOnAfterCommit(a: Alloc, rankings: seq<CoreRanking>)
    ensures var b := Commit(a, rankings);
            && b.cache == rankings && b.selections == map[]
            && (rankings == [] ==> b.lastIndex == 0)
            && (rankings != [] ==> b.lastIndex < |rankings| && NextIndex(b) == (a.lastIndex + 1) % |rankings|)
            && (a.lastIndex < |rankings| ==> b.lastIndex == a.lastIndex)
  {
    if rankings != [] {
      ModAdd(a.lastIndex, 1, |rankings|);
      if a.lastIndex < |rankings| {
        Small(a.lastIndex, |rankings|);
      }
    }
  }

  // ---------------------------------------------------------------- runs

  datatype Op = SelectOp(vm: int, k: int) | CommitOp(rankings: seq<CoreRanking>)

  function Do(a: Alloc, op: Op): Alloc {
    match op
    case SelectOp(vm, k) => Select(a, vm, k).0
    case CommitOp(rankings) => Commit(a, rankings)
  }

  function Run(a: Alloc, ops: seq<Op>): Alloc
    decreases |ops|
  {
    if ops == [] then a else Run(Do(a, ops[0]), ops[1..])
  }

  predicate ValidOp(op: Op) { op.CommitOp? ==> ValidRankings(op.rankings) }

  /** Whatever requests and commits come, in whatever order, the allocator's invariant holds. */
  lemma {:induction false} RunKeepsInv(a: Alloc, ops: seq<Op>)
    requires Inv(a) && forall i :: 0 <= i < |ops| ==> ValidOp(ops[i])
    ensures Inv(Run(a, ops))
    decreases |ops|
  {
    if ops == [] {
    } else {
      assert ValidOp(ops[0]);
      match ops[0] {
        case SelectOp(vm, k) => SelectKeepsInv(a, vm, k);
        case CommitOp(rankings) => CommitKeepsInv(a, rankings);
      }
      RunKeepsInv(Do(a, ops[0]), ops[1..]);
    }
  }

  // ---------------------------------------------------------------- sticky selections

  /** A request that may change what vm has: a well-formed one for vm of another size. */
  predicate Replaces(a: Alloc, op: Op, vm: int, k: int) {
    op.CommitOp? || (op.vm == vm && op.k != k && 0 < op.k <= |a.cache|)
  }

  /** Between commits a selection sticks: once vm holds a selection of size k, requests for other VMs, repeated
      requests and failing ones leave its answer as it was. */
  lemma {:induction false} SelectionSticks(a: Alloc, vm: int, k: int, ops: seq<Op>)
    requires Inv(a) && Sticky(a, vm, k)
    requires forall i :: 0 <= i < |ops| ==> !Replaces(a, ops[i], vm, k)
    ensures var b := Run(a, ops);
            b.cache == a.cache && Sticky(b, vm, k) &&
            Select(b, vm, k) == (b, Ok(a.selections[vm]))
    decreases |ops|
  {
    if ops == [] {
    } else {
      assert !Replaces(a, ops[0], vm, k);
      SelectResult(a, ops[0].vm, ops[0].k);
      SelectKeepsInv(a, ops[0].vm, ops[0].k);
      SelectionSticks(Do(a, ops[0]), vm, k, ops[1..]);
    }
  }

  /** A VM that asks again for as many CPUs as it got is told the same CPUs. */
  lemma {:induction false} RepeatedRequest(a: Alloc, vm: int, k: int, ops: seq<Op>)
    requires Inv(a) && Select(a, vm, k).1.Ok?
    requires forall i :: 0 <= i < |ops| ==> !Replaces(Select(a, vm, k).0, ops[i], vm, k)
    ensures Select(Run(Select(a, vm, k).0, ops), vm, k).1 == Select(a, vm, k).1
  {
    SelectResult(a, vm, k);
    SelectKeepsInv(a, vm, k);
    SelectionSticks(Select(a, vm, k).0, vm, k, ops);
  }

  /** The condition is exact: one request that replaces, and vm's answer for k is no longer a stored one. */
  lemma {:induction false} ReplacedSelectionIsGone(a: Alloc, vm: int, k: int, op: Op)
    requires Inv(a) && Sticky(a, vm, k) && (op.CommitOp? ==> ValidRankings(op.rankings))
    ensures Sticky(Do(a, op), vm, k) <==> !Replaces(a, op, vm, k)
  {
    if op.SelectOp? {
      SelectResult(a, op.vm, op.k);
    }
  }

  // ---------------------------------------------------------------- round robin

  /** The rows that the allocating requests of a run use as primaries, in order. */
  function Primaries(a: Alloc, ops: seq<Op>): seq<nat>
    decreases |ops|
  {
    if ops == [] then []
    else (if ops[0].SelectOp? && Allocates(a, ops[0].vm, ops[0].k) then [NextIndex(a)] else [])
         + Primaries(Do(a, ops[0]), ops[1..])
  }

  predicate KeepsSize(op: Op, n: nat) { op.CommitOp? ==> |op.rankings| == n }

  /** Row numbers that start at `start` and go round. */
  predicate Rotates(p: seq<nat>, start: nat, n: nat)
    requires n > 0
  {
    forall j :: 0 <= j < |p| ==> p[j] == (start + j) % n
  }

  lemma RotatesCons(rest: seq<nat>, start: nat, n: nat)
    requires n > 0 && Rotates(rest, start % n + 1, n)
    ensures Rotates([start % n] + rest, start, n)
  {
    var p := [start % n] + rest;
    forall j | 0 <= j < |p| ensures p[j] == (start + j) % n {
      if j > 0 {
        ModAdd(start, j, n);
        assert p[j] == rest[j - 1];
      }
    }
  }

  lemma {:induction false} KeepsCursor(a: Alloc, op: Op, n: nat)
    requires n > 0 && |a.cache| == n && a.lastIndex < n && KeepsSize(op, n)
    ensures var b := Do(a, op);
            |b.cache| == n && b.lastIndex ==
              if op.SelectOp? && Allocates(a, op.vm, op.k) then (a.lastIndex + 1) % n else a.lastIndex
  {
    if op.CommitOp? {
      Small(a.lastIndex, n);
    }
  }

  /** The rows that so many turns pass after `last`, one step at a time. */
  function Rotation(last: nat, turns: nat, n: nat): seq<nat>
    requires n > 0
    decreases turns
  {
    if turns == 0 then [] else [(last + 1) % n] + Rotation((last + 1) % n, turns - 1, n)
  }

  lemma {:induction false} RotationRotates(last: nat, turns: nat, n: nat)
    requires n > 0
    ensures |Rotation(last, turns, n)| == turns && Rotates(Rotation(last, turns, n), last + 1, n)
    decreases turns
  {
    if turns == 0 {
    } else {
      var next := (last + 1) % n;
      RotationRotates(next, turns - 1, n);
      RotatesCons(Rotation(next, turns - 1, n), last + 1, n);
    }
  }

  lemma {:induction false} StepByStep(a: Alloc, ops: seq<Op>, n: nat)
    requires n > 0 && |a.cache| == n && a.lastIndex < n
    requires forall i :: 0 <= i < |ops| ==> KeepsSize(ops[i], n)
    ensures Primaries(a, ops) == Rotation(a.lastIndex, |Primaries(a, ops)|, n)
    ensures Run(a, ops).lastIndex == if Primaries(a, ops) == [] then a.lastIndex
                                     else Primaries(a, ops)[|Primaries(a, ops)| - 1]
    ensures |Run(a, ops).cache| == n
    decreases |ops|
  {
    if ops == [] {
    } else {
      var b, p := Do(a, ops[0]), Primaries(a, ops);
      var rest := Primaries(b, ops[1..]);
      assert KeepsSize(ops[0], n);
      KeepsCursor(a, ops[0], n);
      StepByStep(b, ops[1..], n);
      if ops[0].SelectOp? && Allocates(a, ops[0].vm, ops[0].k) {
        assert p == [b.lastIndex] + rest;
        assert rest != [] ==> p[|p| - 1] == rest[|rest| - 1];
      } else {
        assert p == rest;
      }
    }
  }

  /** The j-th allocating request uses row (start + j) mod n, across commits that keep the core count. Requests
      answered from the stored selections and failing ones do not advance the cursor. */
  lemma {:induction false} RoundRobin(a: Alloc, ops: seq<Op>, n: nat)
    requires n > 0 && |a.cache| == n && a.lastIndex < n
    requires forall i :: 0 <= i < |ops| ==> KeepsSize(ops[i], n)
    ensures Rotates(Primaries(a, ops), a.lastIndex + 1, n)
    ensures Run(a, ops).lastIndex == (a.lastIndex + |Primaries(a, ops)|) % n
    ensures |Run(a, ops).cache| == n
  {
    StepByStep(a, ops, n);
    RotationRotates(a.lastIndex, |Primaries(a, ops)|, n);
    Small(a.lastIndex, n);
  }

  /** n positions in a row, whatever the start, hit every row once. */
  lemma {:induction false} OneLap(p: seq<nat>, start: nat, n: nat, row: nat)
    requires n > 0 && row < n && |p| <= n && Rotates(p, start, n)
    ensures multiset(p)[row] <= 1
    ensures |p| == n ==> multiset(p)[row] == 1
  {
    forall i, j | 0 <= i < j < |p| ensures p[i] != p[j] {
      Apart(start + i, start + j, n);
    }
    DistinctMultiset(p, row);
    if |p| == n {
      var s := start % n;
      var j := if row >= s then row - s else row + n - s;
      ModAdd(start, j, n);
      Small(row, n);
      Period(row, n);
      assert p[j] == row;
    }
  }

  /** x has had floor(m / n) or ceil(m / n) of the m turns. */
  predicate Evenly<T(==)>(turns: seq<T>, n: nat, x: T)
    requires n > 0
  {
    |turns| / n <= multiset(turns)[x] <= (|turns| + n - 1) / n
  }

  lemma {:induction false} OneMoreLap(lap: seq<nat>, rest: seq<nat>, n: nat, row: nat)
    requires n > 0 && |lap| == n && multiset(lap)[row] == 1 && Evenly(rest, n, row)
    ensures Evenly(lap + rest, n, row)
  {
    Period(|rest|, n);
    Period(|rest| + n - 1, n);
  }

  lemma {:induction false} PartLap(p: seq<nat>, start: nat, n: nat, row: nat)
    requires n > 0 && row < n && |p| < n && Rotates(p, start, n)
    ensures Evenly(p, n, row)
  {
    OneLap(p, start, n, row);
    Small(|p|, n);
    if |p| > 0 {
      Small(|p| - 1, n);
      Period(|p| - 1, n);
    }
  }

  lemma {:induction false} LapCount(p: seq<nat>, start: nat, n: nat, row: nat)
    requires n > 0 && row < n && Rotates(p, start, n)
    ensures Evenly(p, n, row)
    decreases |p|
  {
    if |p| < n {
      PartLap(p, start, n, row);
    } else {
      var lap, rest := p[..n], p[n..];
      assert p == lap + rest;
      OneLap(lap, start, n, row);
      assert Rotates(rest, start + n, n) by {
        forall j | 0 <= j < |rest| ensures rest[j] == (start + n + j) % n {
          assert rest[j] == p[n + j];
        }
      }
      LapCount(rest, start + n, n, row);
      OneMoreLap(lap, rest, n, row);
    }
  }

  /** After m allocations every row has been the primary floor(m / n) or ceil(m / n) times, whatever commits
      that keep the core count put into the rows. */
  lemma {:induction false} EveryRowGetsItsTurn(a: Alloc, ops: seq<Op>, n: nat, row: nat)
    requires n > 0 && |a.cache| == n && a.lastIndex < n && row < n
    requires forall i :: 0 <= i < |ops| ==> KeepsSize(ops[i], n)
    ensures Evenly(Primaries(a, ops), n, row)
  {
    RoundRobin(a, ops, n);
    LapCount(Primaries(a, ops), a.lastIndex + 1, n, row);
  }

  // ---------------------------------------------------------------- what callers see of it

  /** The first CPU in the answer to each allocating request of a run, in order. */
  function FirstCpus(a: Alloc, ops: seq<Op>): seq<int>
    decreases |ops|
  {
    if ops == [] then []
    else
      (if ops[0].SelectOp? && Allocates(a, ops[0].vm, ops[0].k)
       then [Select(a, ops[0].vm, ops[0].k).1.value[0]] else [])
      + FirstCpus(Do(a, ops[0]), ops[1..])
  }

  /** The commit brings the same CPUs in the same order: the machine is what it was, only measured anew. */
  predicate KeepsSources(op: Op, cpus: seq<int>) { op.CommitOp? ==> Sources(op.rankings) == cpus }

  /** cpus[j] is the CPU of the j-th row number. */
  predicate NamesRows(cpus: seq<int>, rows: seq<nat>, sources: seq<int>) {
    |cpus| == |rows| && forall j :: 0 <= j < |rows| ==> rows[j] < |sources| && cpus[j] == sources[rows[j]]
  }

  lemma {:induction false} FirstCpusNameRows(a: Alloc, ops: seq<Op>, sources: seq<int>)
    requires sources != [] && Sources(a.cache) == sources && a.lastIndex < |sources|
    requires forall i :: 0 <= i < |ops| ==> KeepsSources(ops[i], sources)
    ensures NamesRows(FirstCpus(a, ops), Primaries(a, ops), sources)
    decreases |ops|
  {
    if ops == [] {
    } else {
      assert KeepsSources(ops[0], sources);
      KeepsCursor(a, ops[0], |sources|);
      FirstCpusNameRows(Do(a, ops[0]), ops[1..], sources);
      if ops[0].SelectOp? && Allocates(a, ops[0].vm, ops[0].k) {
        assert Select(a, ops[0].vm, ops[0].k).1.value[0] == sources[NextIndex(a)];
      }
    }
  }

  lemma {:induction false} CountByName(cpus: seq<int>, rows: seq<nat>, sources: seq<int>, row: nat)
    requires Distinct(sources) && row < |sources| && NamesRows(cpus, rows, sources)
    ensures multiset(cpus)[sources[row]] == multiset(rows)[row]
  {
    if rows == [] {
    } else {
      var last := |rows| - 1;
      CountByName(cpus[..last], rows[..last], sources, row);
      assert cpus == cpus[..last] + [cpus[last]] && rows == rows[..last] + [rows[last]];
      assert rows[last] < row ==> sources[rows[last]] != sources[row];
      assert row < rows[last] ==> sources[row] != sources[rows[last]];
    }
  }

  lemma {:induction false} FairByName(cpus: seq<int>, rows: seq<nat>, sources: seq<int>, n: nat, row: nat)
    requires n > 0 && Distinct(sources) && row < |sources| && NamesRows(cpus, rows, sources)
    requires Evenly(rows, n, row)
    ensures Evenly(cpus, n, sources[row])
  {
    CountByName(cpus, rows, sources, row);
  }

  lemma {:induction false} FairInRow(a: Alloc, ops: seq<Op>, sources: seq<int>, row: nat)
    requires sources == Sources(a.cache) && Distinct(sources) && row < |sources| && a.lastIndex < |sources|
    requires forall i :: 0 <= i < |ops| ==> KeepsSources(ops[i], sources)
    ensures Evenly(FirstCpus(a, ops), |sources|, sources[row])
  {
    forall i | 0 <= i < |ops| ensures KeepsSize(ops[i], |sources|) {
      assert KeepsSources(ops[i], sources);
    }
    EveryRowGetsItsTurn(a, ops, |sources|, row);
    FirstCpusNameRows(a, ops, sources);
    FairByName(FirstCpus(a, ops), Primaries(a, ops), sources, |sources|, row);
  }

  /** Fairness as callers see it: as long as the machine keeps its CPUs, every CPU comes first in floor(m / n) or
      ceil(m / n) of the m answers that allocate, across recalculations. */
  lemma {:induction false} EveryCpuGetsItsTurn(a: Alloc, ops: seq<Op>, cpu: int)
    requires Inv(a) && cpu in Elements(Sources(a.cache))
    requires forall i :: 0 <= i < |ops| ==> KeepsSources(ops[i], Sources(a.cache))
    ensures a.cache != [] && Evenly(FirstCpus(a, ops), |a.cache|, cpu)
  {
    var sources := Sources(a.cache);
    var row :| 0 <= row < |sources| && sources[row] == cpu;
    FairInRow(a, ops, sources, row);
  }
}
