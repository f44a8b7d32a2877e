/** CPU topology, latency measurement and the ranking that Update computes from them. */
module Ranking {
  import opened Collections
  import opened Wrappers

  datatype CoreInfo = CoreInfo(cpu: int, socket: int, core: int)
  datatype Neighbor = Neighbor(cpu: int, socket: int, core: int, latency: real)
  datatype CoreRanking = CoreRanking(cpu: int, ranking: seq<Neighbor>)

  datatype UpdateError = DetectFailed | MeasureFailed(src: int, dst: int)

  /** What the measurer answers when asked in round r for the i-th and the j-th core of the topology. */
  type Measurer = (nat, nat, nat) -> Option<real>

  function CpuOf(n: Neighbor): int { n.cpu }
  function Cpus(row: seq<Neighbor>): seq<int> { Map(CpuOf, row) }

  function SourceOf(r: CoreRanking): int { r.cpu }
  function Sources(rankings: seq<CoreRanking>): seq<int> { Map(SourceOf, rankings) }

  function TopologyCpu(c: CoreInfo): int { c.cpu }

  /** The detector reads one directory per CPU number, so no number occurs twice. */
  predicate DistinctCpus(topology: seq<CoreInfo>) {
    Distinct(Map(TopologyCpu, topology))
  }

  predicate ByLatency(a: Neighbor, b: Neighbor) { a.latency <= b.latency }

  // ---------------------------------------------------------------- what Update should publish

  function Measured(m: Measurer, r: nat, i: nat, j: nat): real {
    match m(r, i, j)
    case Some(lat) => lat
    case None => 0.0
  }

  function SumRounds(m: Measurer, i: nat, j: nat, rounds: nat): real {
    if rounds == 0 then 0.0 else SumRounds(m, i, j, rounds - 1) + Measured(m, rounds - 1, i, j)
  }

  function Mean(m: Measurer, i: nat, j: nat, rounds: nat): real
    requires rounds > 0
  {
    SumRounds(m, i, j, rounds) / (rounds as real)
  }

  function NeighborAt(topology: seq<CoreInfo>, m: Measurer, rounds: nat, i: nat, j: nat): Neighbor
    requires j < |topology| && rounds > 0
  {
    Neighbor(topology[j].cpu, topology[j].socket, topology[j].core, Mean(m, i, j, rounds))
  }

  function AllFrom(topology: seq<CoreInfo>, m: Measurer, rounds: nat, i: nat): seq<Neighbor>
    requires rounds > 0
  {
    seq(|topology|, j requires 0 <= j < |topology| => NeighborAt(topology, m, rounds, i, j))
  }

  /** Every other core, with the mean latency to it. */
  function NeighborsOf(topology: seq<CoreInfo>, m: Measurer, rounds: nat, i: nat): seq<Neighbor>
    requires i < |topology| && rounds > 0
  {
    RemoveAt(AllFrom(topology, m, rounds, i), i)
  }

  predicate Ranks(r: CoreRanking, topology: seq<CoreInfo>, m: Measurer, rounds: nat, i: nat)
    requires i < |topology| && rounds > 0
  {
    r.cpu == topology[i].cpu && SortOf(r.ranking, NeighborsOf(topology, m, rounds, i), ByLatency)
  }

  predicate Published(rankings: seq<CoreRanking>, topology: seq<CoreInfo>, m: Measurer, rounds: nat)
    requires rounds > 0
  {
    |rankings| == |topology| &&
    forall i :: 0 <= i < |topology| ==> Ranks(rankings[i], topology, m, rounds, i)
  }

  predicate Earlier(r': nat, i': nat, j': nat, r: nat, i: nat, j: nat) {
    r' < r || (r' == r && (i' < i || (i' == i && j' < j)))
  }

  ghost predicate MeasuredBefore(m: Measurer, n: nat, r: nat, i: nat, j: nat) {
    forall r': nat, i': nat, j': nat ::
      i' < n && j' < n && i' != j' && Earlier(r', i', j', r, i, j) ==> m(r', i', j').Some?
  }

  /** The measurement that stops the update: it failed and all those before it did not. */
  ghost predicate FirstFailure(m: Measurer, n: nat, rounds: nat, r: nat, i: nat, j: nat) {
    r < rounds && i < n && j < n && i != j && m(r, i, j).None? && MeasuredBefore(m, n, r, i, j)
  }

  ghost predicate FailsAt(topology: seq<CoreInfo>, m: Measurer, rounds: nat, src: int, dst: int) {
    exists r: nat, i: nat, j: nat ::
      FirstFailure(m, |topology|, rounds, r, i, j) && topology[i].cpu == src && topology[j].cpu == dst
  }

  // ---------------------------------------------------------------- the flattened matrix

  function Index(n: nat, i: nat, j: nat): nat { i * n + j }

  lemma IndexInRange(n: nat, i: nat, j: nat)
    requires i < n && j < n
    ensures Index(n, i, j) < n * n
  {
    assert (i + 1) * n <= n * n;
  }

  lemma IndexOrder(n: nat, i: nat, j: nat, i': nat, j': nat)
    requires j < n && j' < n
    ensures i < i' ==> Index(n, i, j) < Index(n, i', j')
  {
    if i < i' {
      assert (i + 1) * n <= i' * n;
    }
  }

  lemma IndexInjective(n: nat, i: nat, j: nat, i': nat, j': nat)
    requires i < n && j < n && i' < n && j' < n && Index(n, i, j) == Index(n, i', j')
    ensures i == i' && j == j'
  {
    IndexOrder(n, i, j, i', j');
    IndexOrder(n, i', j', i, j);
  }

  lemma IndicesInRange(n: nat)
    ensures forall a: nat, b: nat :: a < n && b < n ==> Index(n, a, b) < n * n
  {
    forall a: nat, b: nat | a < n && b < n ensures Index(n, a, b) < n * n {
      IndexInRange(n, a, b);
    }
  }

  /** The accumulator after all measurements before (r, i, j): one round more for the pairs already done. */
  ghost predicate Accumulated(sums: seq<real>, m: Measurer, n: nat, r: nat, i: nat, j: nat) {
    && |sums| == n * n
    && forall a: nat, b: nat :: a < n && b < n ==>
         && Index(n, a, b) < |sums|
         && sums[Index(n, a, b)] ==
              if a == b then 0.0 else SumRounds(m, a, b, if Earlier(r, a, b, r, i, j) then r + 1 else r)
  }

  lemma AccumulateOne(sums: seq<real>, m: Measurer, n: nat, r: nat, i: nat, j: nat)
    requires i < n && j < n && i != j && Accumulated(sums, m, n, r, i, j)
    ensures var k := Index(n, i, j);
            k < |sums| && Accumulated(sums[k := sums[k] + Measured(m, r, i, j)], m, n, r, i, j + 1)
  {
    var k := Index(n, i, j);
    IndexInRange(n, i, j);
    var next := sums[k := sums[k] + Measured(m, r, i, j)];
    forall a: nat, b: nat | a < n && b < n
      ensures Index(n, a, b) < |next|
      ensures next[Index(n, a, b)] ==
                if a == b then 0.0 else SumRounds(m, a, b, if Earlier(r, a, b, r, i, j + 1) then r + 1 else r)
    {
      assert Index(n, a, b) < |sums|;
      if Index(n, a, b) == k {
        IndexInjective(n, a, b, i, j);
      }
    }
  }

  method AddLatency(latSums: array<real>, ghost m: Measurer, n: nat, ghost r: nat, i: nat, j: nat, lat: real)
    requires i < n && j < n && i != j && m(r, i, j) == Some(lat)
    requires Accumulated(latSums[..], m, n, r, i, j)
    modifies latSums
    ensures Accumulated(latSums[..], m, n, r, i, j + 1)
  {
    ghost var before, k := latSums[..], Index(n, i, j);
    AccumulateOne(before, m, n, r, i, j);
    latSums[i * n + j] := latSums[i * n + j] + lat;
    assert latSums[..] == before[k := before[k] + lat];
  }

  lemma {:induction false} AccumulatedRow(sums: seq<real>, m: Measurer, n: nat, r: nat, i: nat)
    requires Accumulated(sums, m, n, r, i, n)
    ensures Accumulated(sums, m, n, r, i + 1, 0)
  {
    forall a: nat, b: nat | a < n && b < n ensures Earlier(r, a, b, r, i, n) <==> Earlier(r, a, b, r, i + 1, 0) {}
  }

  lemma {:induction false} AccumulatedRound(sums: seq<real>, m: Measurer, n: nat, r: nat)
    requires Accumulated(sums, m, n, r, n, 0)
    ensures Accumulated(sums, m, n, r + 1, 0, 0)
  {
    forall a: nat, b: nat | a < n && b < n ensures Earlier(r, a, b, r, n, 0) && !Earlier(r + 1, a, b, r + 1, 0, 0) {}
  }

  /** One row of one round: the innermost loop of Update. */
  method MeasureRow(latSums: array<real>, topology: seq<CoreInfo>, m: Measurer, rounds: nat, r: nat, i: nat)
      returns (failure: Option<UpdateError>)
    requires r < rounds && i < |topology|
    requires MeasuredBefore(m, |topology|, r, i, 0) && Accumulated(latSums[..], m, |topology|, r, i, 0)
    modifies latSums
    ensures match failure
            case None => MeasuredBefore(m, |topology|, r, i + 1, 0) &&
                         Accumulated(latSums[..], m, |topology|, r, i + 1, 0)
            case Some(MeasureFailed(src, dst)) => FailsAt(topology, m, rounds, src, dst)
            case Some(DetectFailed) => false
  {
    var n := |topology|;
    failure := None;
    for j := 0 to n
      invariant MeasuredBefore(m, n, r, i, j)
      invariant Accumulated(latSums[..], m, n, r, i, j)
    {
      if i == j {
        continue;
      }
      match m(r, i, j)
      case None =>
        assert FirstFailure(m, n, rounds, r, i, j);
        failure := Some(MeasureFailed(topology[i].cpu, topology[j].cpu));
        return;
      case Some(lat) =>
        AddLatency(latSums, m, n, r, i, j, lat);
    }
    AccumulatedRow(latSums[..], m, n, r, i);
  }

  method NewSums(ghost m: Measurer, n: nat) returns (latSums: array<real>)
    ensures fresh(latSums) && Accumulated(latSums[..], m, n, 0, 0, 0)
  {
    IndicesInRange(n);
    latSums := new real[n * n](_ => 0.0);
  }

  /** The measuring half of Update: the latency sums, or the first failure. */
  method Accumulate(topology: seq<CoreInfo>, m: Measurer, rounds: nat)
      returns (latSums: array<real>, failure: Option<UpdateError>)
    ensures fresh(latSums)
    ensures match failure
            case None => MeasuredBefore(m, |topology|, rounds, 0, 0) &&
                         Accumulated(latSums[..], m, |topology|, rounds, 0, 0)
            case Some(MeasureFailed(src, dst)) => FailsAt(topology, m, rounds, src, dst)
            case Some(DetectFailed) => false
  {
    var n := |topology|;
    latSums := NewSums(m, n);
    failure := None;
    for r := 0 to rounds
      invariant failure.None? && MeasuredBefore(m, n, r, 0, 0)
      invariant Accumulated(latSums[..], m, n, r, 0, 0)
    {
      for i := 0 to n
        invariant failure.None? && MeasuredBefore(m, n, r, i, 0)
        invariant Accumulated(latSums[..], m, n, r, i, 0)
      {
        failure := MeasureRow(latSums, topology, m, rounds, r, i);
        if failure.Some? {
          return;
        }
      }
      AccumulatedRound(latSums[..], m, n, r);
    }
  }

  lemma ByLatencyIsAPreorder()
    ensures TotalPreorder(ByLatency)
  {}

  method CollectNeighbors(topology: seq<CoreInfo>, latSums: seq<real>, ghost m: Measurer, rounds: nat, i: nat)
      returns (neighbors: seq<Neighbor>)
    requires rounds > 0 && i < |topology| && Accumulated(latSums, m, |topology|, rounds, 0, 0)
    ensures neighbors == NeighborsOf(topology, m, rounds, i)
  {
    var n := |topology|;
    ghost var all := AllFrom(topology, m, rounds, i);
    neighbors := [];
    for j := 0 to n
      invariant neighbors == if j <= i then all[..j] else all[..i] + all[i + 1..j]
    {
      if i == j {
        continue;
      }
      assert latSums[Index(n, i, j)] == SumRounds(m, i, j, rounds);
      var avgLat := latSums[i * n + j] / (rounds as real);
      neighbors := neighbors + [Neighbor(topology[j].cpu, topology[j].socket, topology[j].core, avgLat)];
      assert neighbors[|neighbors| - 1] == all[j];
    }
  }

  method RankCore(topology: seq<CoreInfo>, latSums: seq<real>, ghost m: Measurer, rounds: nat, i: nat)
      returns (ranking: CoreRanking)
    requires rounds > 0 && i < |topology| && Accumulated(latSums, m, |topology|, rounds, 0, 0)
    ensures Ranks(ranking, topology, m, rounds, i)
  {
    var neighbors := CollectNeighbors(topology, latSums, m, rounds, i);
    ByLatencyIsAPreorder();
    neighbors := Sort(neighbors, ByLatency);
    ranking := CoreRanking(topology[i].cpu, neighbors);
  }

  method Aggregate(topology: seq<CoreInfo>, latSums: seq<real>, ghost m: Measurer, rounds: nat)
      returns (finalResults: seq<CoreRanking>)
    requires rounds > 0 && Accumulated(latSums, m, |topology|, rounds, 0, 0)
    ensures Published(finalResults, topology, m, rounds)
  {
    finalResults := [];
    for i := 0 to |topology|
      invariant |finalResults| == i
      invariant forall k :: 0 <= k < i ==> Ranks(finalResults[k], topology, m, rounds, k)
    {
      var ranking := RankCore(topology, latSums, m, rounds, i);
      finalResults := finalResults + [ranking];
    }
  }

  /** Update up to the point where it takes the lock: nothing shared is touched. */
  method ComputeRankings(detected: Option<seq<CoreInfo>>, m: Measurer, rounds: nat)
      returns (r: Result<seq<CoreRanking>, UpdateError>)
    requires rounds > 0
    ensures r.Ok? <==> detected.Some? && MeasuredBefore(m, |detected.value|, rounds, 0, 0)
    ensures match r
            case Ok(rankings) => Published(rankings, detected.value, m, rounds)
            case Err(DetectFailed) => detected.None?
            case Err(MeasureFailed(src, dst)) =>
              detected.Some? && FailsAt(detected.value, m, rounds, src, dst)
  {
    if detected.None? {
      return Err(DetectFailed);
    }
    var topology := detected.value;
    var latSums, failure := Accumulate(topology, m, rounds);
    if failure.Some? {
      return Err(failure.value);
    }
    var finalResults := Aggregate(topology, latSums[..], m, rounds);
    r := Ok(finalResults);
  }

  // ---------------------------------------------------------------- what a published ranking is

  predicate ValidRow(c: seq<CoreRanking>, i: nat)
    requires i < |c|
  {
    && SortedBy(c[i].ranking, ByLatency)
    && Distinct(Cpus(c[i].ranking))
    && Elements(Cpus(c[i].ranking)) == Elements(Sources(c)) - {c[i].cpu}
  }

  /** One row per core; each row lists exactly the other cores, once each, nearest first. */
  predicate ValidRankings(c: seq<CoreRanking>) {
    && Distinct(Sources(c))
    && forall i :: 0 <= i < |c| ==> ValidRow(c, i)
  }

  lemma {:induction false} RowLength(c: seq<CoreRanking>, i: nat)
    requires ValidRankings(c) && i < |c|
    ensures |c[i].ranking| == |c| - 1
  {
    CardinalityOfDistinct(Sources(c));
    assert ValidRow(c, i);
    CardinalityOfDistinct(Cpus(c[i].ranking));
    assert Sources(c)[i] == c[i].cpu;
  }

  lemma {:induction false} PublishedSources(c: seq<CoreRanking>, topology: seq<CoreInfo>, m: Measurer, rounds: nat)
    requires rounds > 0 && Published(c, topology, m, rounds)
    ensures Sources(c) == Map(TopologyCpu, topology)
  {
    assert forall i :: 0 <= i < |c| ==> Ranks(c[i], topology, m, rounds, i);
  }

  lemma RemoveAtElements(all: seq<int>, i: nat)
    requires i < |all| && Distinct(all)
    ensures Distinct(RemoveAt(all, i)) && Elements(RemoveAt(all, i)) == Elements(all) - {all[i]}
  {
    forall x | x in Elements(all) - {all[i]} ensures x in RemoveAt(all, i) {
      var k :| 0 <= k < |all| && all[k] == x;
      assert RemoveAt(all, i)[if k < i then k else k - 1] == x;
    }
  }

  lemma SameElements(a: seq<int>, b: seq<int>)
    requires multiset(a) == multiset(b)
    ensures Elements(a) == Elements(b)
  {
    forall x ensures x in a <==> x in b {
      SamePosition(a, b, x);
    }
  }

  lemma CpusOfOthers(topology: seq<CoreInfo>, m: Measurer, rounds: nat, i: nat)
    requires rounds > 0 && i < |topology|
    ensures Cpus(NeighborsOf(topology, m, rounds, i)) == RemoveAt(Map(TopologyCpu, topology), i)
  {}

  lemma {:induction false} PublishedRow(c: seq<CoreRanking>, topology: seq<CoreInfo>, m: Measurer, rounds: nat, i: nat)
    requires rounds > 0 && DistinctCpus(topology) && Published(c, topology, m, rounds) && i < |c|
    ensures ValidRow(c, i)
  {
    var all := Map(TopologyCpu, topology);
    PublishedSources(c, topology, m, rounds);
    var others := NeighborsOf(topology, m, rounds, i);
    assert Ranks(c[i], topology, m, rounds, i);
    MapPermutation(CpuOf, c[i].ranking, others);
    CpusOfOthers(topology, m, rounds, i);
    RemoveAtElements(all, i);
    DistinctPermutation(Cpus(others), Cpus(c[i].ranking));
    SameElements(Cpus(others), Cpus(c[i].ranking));
  }

  lemma {:induction false} PublishedIsValid(c: seq<CoreRanking>, topology: seq<CoreInfo>, m: Measurer, rounds: nat)
    requires rounds > 0 && DistinctCpus(topology) && Published(c, topology, m, rounds)
    ensures ValidRankings(c)
  {
    PublishedSources(c, topology, m, rounds);
    forall i | 0 <= i < |c| ensures ValidRow(c, i) {
      PublishedRow(c, topology, m, rounds, i);
    }
  }

  /** Whatever was measured, there is a ranking to publish. */
  lemma {:induction false} SomePublished(topology: seq<CoreInfo>, m: Measurer, rounds: nat)
      returns (rankings: seq<CoreRanking>)
    requires rounds > 0
    ensures Published(rankings, topology, m, rounds)
  {
    ByLatencyIsAPreorder();
    rankings := seq(|topology|, i requires 0 <= i < |topology| =>
      CoreRanking(topology[i].cpu, Sorted(NeighborsOf(topology, m, rounds, i), ByLatency)));
    forall i | 0 <= i < |topology| ensures Ranks(rankings[i], topology, m, rounds, i) {
      SortedIsSort(NeighborsOf(topology, m, rounds, i), ByLatency);
    }
  }

  lemma {:induction false} AmongOthers(topology: seq<CoreInfo>, m: Measurer, rounds: nat, i: nat, n: Neighbor)
    requires rounds > 0 && i < |topology|
    ensures n in NeighborsOf(topology, m, rounds, i) <==>
              exists j :: 0 <= j < |topology| && j != i && n == NeighborAt(topology, m, rounds, i, j)
  {
    var others := NeighborsOf(topology, m, rounds, i);
    if j :| 0 <= j < |topology| && j != i && n == NeighborAt(topology, m, rounds, i, j) {
      assert others[if j < i then j else j - 1] == n;
    }
    if n in others {
      var k :| 0 <= k < |others| && others[k] == n;
      var j := if k < i then k else k + 1;
      assert n == NeighborAt(topology, m, rounds, i, j);
    }
  }

  /** The entries of row i are exactly the other cores with the means measured from i. */
  lemma {:induction false} InPublishedRow(c: seq<CoreRanking>, topology: seq<CoreInfo>, m: Measurer, rounds: nat,
      i: nat, n: Neighbor)
    requires rounds > 0 && Published(c, topology, m, rounds) && i < |c|
    ensures n in c[i].ranking <==>
              exists j :: 0 <= j < |topology| && j != i && n == NeighborAt(topology, m, rounds, i, j)
  {
    assert Ranks(c[i], topology, m, rounds, i);
    SamePosition(c[i].ranking, NeighborsOf(topology, m, rounds, i), n);
    AmongOthers(topology, m, rounds, i, n);
  }

  lemma RowLengthOfPublished(c: seq<CoreRanking>, topology: seq<CoreInfo>, m: Measurer, rounds: nat, i: nat)
    requires rounds > 0 && Published(c, topology, m, rounds) && i < |c|
    ensures |c[i].ranking| == |topology| - 1
  {
    var others := NeighborsOf(topology, m, rounds, i);
    assert Ranks(c[i], topology, m, rounds, i);
    assert |multiset(c[i].ranking)| == |c[i].ranking| && |multiset(others)| == |others|;
  }

  // ---------------------------------------------------------------- what an update measures, and what it publishes

  /** What the measurer answered for a pair of cores, round by round. */
  function Answers(m: Measurer, i: nat, j: nat, rounds: nat): seq<real>
    requires forall r: nat :: r < rounds ==> m(r, i, j).Some?
  {
    seq(rounds, r requires 0 <= r < rounds => m(r, i, j).value)
  }

  lemma {:induction false} SumRoundsIsSum(m: Measurer, i: nat, j: nat, rounds: nat)
    requires forall r: nat :: r < rounds ==> m(r, i, j).Some?
    ensures SumRounds(m, i, j, rounds) == Sum(Answers(m, i, j, rounds))
  {
    if rounds == 0 {
    } else {
      var last := m(rounds - 1, i, j).value;
      SumRoundsIsSum(m, i, j, rounds - 1);
      assert Answers(m, i, j, rounds) == Answers(m, i, j, rounds - 1) + [last];
      SumAppend(Answers(m, i, j, rounds - 1), [last]);
    }
  }

  /** The mean times the number of rounds is the sum of what was measured in them. */
  lemma {:induction false} MeanIsAverage(m: Measurer, i: nat, j: nat, rounds: nat)
    requires rounds > 0 && forall r: nat :: r < rounds ==> m(r, i, j).Some?
    ensures Mean(m, i, j, rounds) * (rounds as real) == Sum(Answers(m, i, j, rounds))
  {
    SumRoundsIsSum(m, i, j, rounds);
  }

  /** What a published ranking says about two cores: row i is that of core i, and it has an entry with core j's own
      number, socket and core and with the average of what was measured from i to j. RowLength and InPublishedRow
      say that the row has no other entries. */
  lemma {:induction false} PublishedEntry(c: seq<CoreRanking>, topology: seq<CoreInfo>, m: Measurer, rounds: nat,
      i: nat, j: nat) returns (k: nat)
    requires rounds > 0 && Published(c, topology, m, rounds) && i < |topology| && j < |topology| && i != j
    requires forall r: nat :: r < rounds ==> m(r, i, j).Some?
    ensures |c| == |topology| && c[i].cpu == topology[i].cpu && k < |c[i].ranking| == |topology| - 1
    ensures var n := c[i].ranking[k];
            && n.cpu == topology[j].cpu && n.socket == topology[j].socket && n.core == topology[j].core
            && n.latency * (rounds as real) == Sum(Answers(m, i, j, rounds))
  {
    var n := NeighborAt(topology, m, rounds, i, j);
    assert Ranks(c[i], topology, m, rounds, i);
    InPublishedRow(c, topology, m, rounds, i, n);
    RowLengthOfPublished(c, topology, m, rounds, i);
    MeanIsAverage(m, i, j, rounds);
    k :| 0 <= k < |c[i].ranking| && c[i].ranking[k] == n;
  }

  /** An update succeeds when every core has been measured against every other in every round. */
  lemma {:induction false} SucceedsIfAllAnswer(m: Measurer, n: nat, rounds: nat)
    ensures MeasuredBefore(m, n, rounds, 0, 0) <==>
              forall r: nat, i: nat, j: nat :: r < rounds && i < n && j < n && i != j ==> m(r, i, j).Some?
  {}

  lemma {:induction false} EarlierIsCallOrder(n: nat, r': nat, i': nat, j': nat, r: nat, i: nat, j: nat)
    requires i' < n && j' < n && i < n && j < n
    ensures Earlier(r', i', j', r, i, j) <==> (r' * n + i') * n + j' < (r * n + i) * n + j
  {
    IndexOrder(n, r', i', r, i);
    IndexOrder(n, r, i, r', i');
    IndexOrder(n, Index(n, r', i'), j', Index(n, r, i), j);
    IndexOrder(n, Index(n, r, i), j, Index(n, r', i'), j');
    if r' == r {
      assert Index(n, r', i') - Index(n, r, i) == i' - i;
    }
  }

  /** The call fails, and all calls before it, numbered round by round, row by row, do not. */
  ghost predicate FirstFailingCall(m: Measurer, n: nat, rounds: nat, r: nat, i: nat, j: nat) {
    && r < rounds && i < n && j < n && i != j && m(r, i, j).None?
    && forall r': nat, i': nat, j': nat ::
         i' < n && j' < n && i' != j' && (r' * n + i') * n + j' < (r * n + i) * n + j ==> m(r', i', j').Some?
  }

  lemma {:induction false} FirstFailureIsFirstCall(m: Measurer, n: nat, rounds: nat, r: nat, i: nat, j: nat)
    ensures FirstFailure(m, n, rounds, r, i, j) <==> FirstFailingCall(m, n, rounds, r, i, j)
  {
    if i < n && j < n {
      forall r': nat, i': nat, j': nat | i' < n && j' < n
        ensures Earlier(r', i', j', r, i, j) <==> (r' * n + i') * n + j' < (r * n + i) * n + j
      {
        EarlierIsCallOrder(n, r', i', j', r, i, j);
      }
    }
  }

  /** And it fails with the source and the destination of the first call that fails. */
  lemma {:induction false} FailsAtFirstFailingCall(topology: seq<CoreInfo>, m: Measurer, rounds: nat,
      src: int, dst: int)
    ensures FailsAt(topology, m, rounds, src, dst) <==>
              exists r: nat, i: nat, j: nat :: FirstFailingCall(m, |topology|, rounds, r, i, j) &&
                topology[i].cpu == src && topology[j].cpu == dst
  {
    forall r: nat, i: nat, j: nat
      ensures FirstFailure(m, |topology|, rounds, r, i, j) <==> FirstFailingCall(m, |topology|, rounds, r, i, j)
    {
      FirstFailureIsFirstCall(m, |topology|, rounds, r, i, j);
    }
  }
}
