/** SummarizeRankings: one pass with running accumulators, against the statistics it is meant to report. */
module Summary {
  import opened Collections
  import opened Ranking
  import opened Nearest

  datatype TopologyStats = TopologyStats(
    cpuCount: nat, socketCount: nat, min: real, max: real, median: real, mean: real)

  const NO_STATS := TopologyStats(0, 0, 0.0, 0.0, 0.0, 0.0)

  // where the running minimum and maximum start
  const MIN_START := 1000000000000000000.0
  const MAX_START := -1.0

  function SocketOf(n: Neighbor): int { n.socket }

  /** The neighbours of all rows, one row after the other. */
  function AllNeighbors(rankings: seq<CoreRanking>): seq<Neighbor> {
    if rankings == [] then []
    else AllNeighbors(rankings[..|rankings| - 1]) + rankings[|rankings| - 1].ranking
  }

  function Latencies(rankings: seq<CoreRanking>): seq<real> { Map(Latency, AllNeighbors(rankings)) }

  function MentionedCpus(rankings: seq<CoreRanking>): set<int> {
    Elements(Sources(rankings)) + Elements(Cpus(AllNeighbors(rankings)))
  }

  function MentionedSockets(rankings: seq<CoreRanking>): set<int> {
    Elements(Map(SocketOf, AllNeighbors(rankings)))
  }

  function RunningMin(xs: seq<real>): real {
    if xs == [] then MIN_START
    else
      var m, x := RunningMin(xs[..|xs| - 1]), xs[|xs| - 1];
      if x < m then x else m
  }

  function RunningMax(xs: seq<real>): real {
    if xs == [] then MAX_START
    else
      var m, x := RunningMax(xs[..|xs| - 1]), xs[|xs| - 1];
      if x > m then x else m
  }

  predicate AtMost(a: real, b: real) { a <= b }

  ghost predicate IsMedian(median: real, xs: seq<real>)
    requires xs != []
  {
    exists sorted :: SortOf(sorted, xs, AtMost) && |sorted| == |xs| && median == sorted[|xs| / 2]
  }

  predicate CountsAre(stats: TopologyStats, rankings: seq<CoreRanking>) {
    stats.cpuCount == |MentionedCpus(rankings)| && stats.socketCount == |MentionedSockets(rankings)|
  }

  ghost predicate IsSummary(rankings: seq<CoreRanking>, stats: TopologyStats) {
    var lats := Latencies(rankings);
    && CountsAre(stats, rankings)
    && if lats == [] then stats.min == stats.max == stats.median == stats.mean == 0.0
       else
         && stats.min == RunningMin(lats)
         && stats.max == RunningMax(lats)
         && IsMedian(stats.median, lats)
         && stats.mean == Sum(lats) / (|lats| as real)
  }

  /** The accumulators of the pass. */
  datatype Tally = Tally(
    lats: seq<real>, total: real, count: nat, sockets: set<int>, cpus: set<int>, min: real, max: real)

  const NOTHING_SEEN := Tally([], 0.0, 0, {}, {}, MIN_START, MAX_START)

  /** Their values after the rows of `sources` have been entered and the neighbours `seen` gone through. */
  ghost predicate Tallies(t: Tally, sources: set<int>, seen: seq<Neighbor>) {
    && t.lats == Map(Latency, seen)
    && t.total == Sum(t.lats)
    && t.count == |seen|
    && t.sockets == Elements(Map(SocketOf, seen))
    && t.cpus == sources + Elements(Cpus(seen))
    && t.min == RunningMin(t.lats)
    && t.max == RunningMax(t.lats)
  }

  function Enter(t: Tally, n: Neighbor): Tally {
    Tally(t.lats + [n.latency], t.total + n.latency, t.count + 1, t.sockets + {n.socket}, t.cpus + {n.cpu},
          if n.latency < t.min then n.latency else t.min, if n.latency > t.max then n.latency else t.max)
  }

  lemma {:induction false} EnterTallies(t: Tally, sources: set<int>, seen: seq<Neighbor>, n: Neighbor)
    requires Tallies(t, sources, seen)
    ensures Tallies(Enter(t, n), sources, seen + [n])
  {
    assert Map(Latency, seen + [n]) == t.lats + [n.latency];
    assert Map(SocketOf, seen + [n]) == Map(SocketOf, seen) + [n.socket];
    assert Cpus(seen + [n]) == Cpus(seen) + [n.cpu];
    SumAppend(t.lats, [n.latency]);
    assert (t.lats + [n.latency])[..|t.lats|] == t.lats;
  }

  lemma {:induction false} AddSource(t: Tally, sources: set<int>, seen: seq<Neighbor>, cpu: int)
    requires Tallies(t, sources, seen)
    ensures Tallies(t.(cpus := t.cpus + {cpu}), sources + {cpu}, seen)
  {}

  lemma NextRow(rankings: seq<CoreRanking>, i: nat)
    requires i < |rankings|
    ensures AllNeighbors(rankings[..i + 1]) == AllNeighbors(rankings[..i]) + rankings[i].ranking
    ensures Elements(Sources(rankings[..i + 1])) == Elements(Sources(rankings[..i])) + {rankings[i].cpu}
  {
    assert rankings[..i + 1][..i] == rankings[..i];
    assert Sources(rankings[..i + 1]) == Sources(rankings[..i]) + [rankings[i].cpu];
  }

  lemma AtMostIsAPreorder()
    ensures TotalPreorder(AtMost)
  {}

  method TallyOne(before: Tally, n: Neighbor) returns (t: Tally)
    ensures t == Enter(before, n)
  {
    var val := n.latency;
    var min, max := before.min, before.max;
    if val < min {
      min := val;
    }
    if val > max {
      max := val;
    }
    t := Tally(before.lats + [val], before.total + val, before.count + 1,
               before.sockets + {n.socket}, before.cpus + {n.cpu}, min, max);
  }

  method TallyRow(before: Tally, r: CoreRanking, ghost sources: set<int>, ghost seen: seq<Neighbor>) returns (t: Tally)
    requires Tallies(before, sources, seen)
    ensures Tallies(t, sources + {r.cpu}, seen + r.ranking)
  {
    t := before.(cpus := before.cpus + {r.cpu});
    AddSource(before, sources, seen, r.cpu);
    ghost var upTo, now := seen, sources + {r.cpu};
    for k := 0 to |r.ranking|
      invariant upTo == seen + r.ranking[..k]
      invariant Tallies(t, now, upTo)
    {
      var n := r.ranking[k];
      EnterTallies(t, now, upTo, n);
      t := TallyOne(t, n);
      NextPrefix(seen, r.ranking, k);
      upTo := seen + r.ranking[..k + 1];
    }
    assert r.ranking[..|r.ranking|] == r.ranking;
  }

  method MiddleOf(lats: seq<real>) returns (median: real)
    requires lats != []
    ensures IsMedian(median, lats)
  {
    AtMostIsAPreorder();
    var sorted := Sort(lats, AtMost);
    SamePosition(sorted, lats, 0.0);
    median := sorted[|sorted| / 2];
  }

  method SummarizeRankings(rankings: seq<CoreRanking>) returns (stats: TopologyStats)
    ensures IsSummary(rankings, stats)
  {
    if |rankings| == 0 {
      assert MentionedCpus(rankings) == {} && MentionedSockets(rankings) == {};
      return NO_STATS;
    }
    var t := NOTHING_SEEN;
    ghost var seen: seq<Neighbor> := [];
    for i := 0 to |rankings|
      invariant seen == AllNeighbors(rankings[..i])
      invariant Tallies(t, Elements(Sources(rankings[..i])), seen)
    {
      NextRow(rankings, i);
      t := TallyRow(t, rankings[i], Elements(Sources(rankings[..i])), seen);
      seen := seen + rankings[i].ranking;
    }
    assert rankings[..|rankings|] == rankings;
    if t.count == 0 {
      stats := TopologyStats(|t.cpus|, |t.sockets|, 0.0, 0.0, 0.0, 0.0);
    } else {
      var median := MiddleOf(t.lats);
      stats := TopologyStats(|t.cpus|, |t.sockets|, t.min, t.max, median, t.total / (t.count as real));
    }
  }

  // ---------------------------------------------------------------- what the statistics mean

  predicate IsLeast(m: real, xs: seq<real>) { m in xs && forall x :: x in xs ==> m <= x }
  predicate IsGreatest(m: real, xs: seq<real>) { m in xs && forall x :: x in xs ==> x <= m }

  lemma {:induction false} RunningMinBounds(xs: seq<real>)
    ensures forall x :: x in xs ==> RunningMin(xs) <= x
    ensures RunningMin(xs) <= MIN_START
    ensures RunningMin(xs) == MIN_START || RunningMin(xs) in xs
  {
    if xs == [] {
    } else {
      RunningMinBounds(xs[..|xs| - 1]);
      assert xs == xs[..|xs| - 1] + [xs[|xs| - 1]];
    }
  }

  lemma {:induction false} RunningMaxBounds(xs: seq<real>)
    ensures forall x :: x in xs ==> x <= RunningMax(xs)
    ensures MAX_START <= RunningMax(xs)
    ensures RunningMax(xs) == MAX_START || RunningMax(xs) in xs
  {
    if xs == [] {
    } else {
      RunningMaxBounds(xs[..|xs| - 1]);
      assert xs == xs[..|xs| - 1] + [xs[|xs| - 1]];
    }
  }

  /** The start values are safe exactly when some latency is on the right side of each. */
  lemma {:induction false} ExtremesAreAttained(rankings: seq<CoreRanking>, stats: TopologyStats)
    requires IsSummary(rankings, stats) && Latencies(rankings) != []
    ensures IsLeast(stats.min, Latencies(rankings)) <==>
              exists x :: x in Latencies(rankings) && x <= 1000000000000000000.0
    ensures IsGreatest(stats.max, Latencies(rankings)) <==> exists x :: x in Latencies(rankings) && -1.0 <= x
  {
    RunningMinBounds(Latencies(rankings));
    RunningMaxBounds(Latencies(rankings));
  }

  lemma {:induction false} SumBounds(xs: seq<real>, lo: real, hi: real)
    requires forall x :: x in xs ==> lo <= x <= hi
    ensures lo * (|xs| as real) <= Sum(xs) <= hi * (|xs| as real)
  {
    if xs == [] {
    } else {
      forall x | x in xs[1..] ensures lo <= x <= hi {
        assert x in xs;
      }
      SumBounds(xs[1..], lo, hi);
      assert xs[0] in xs;
      assert |xs| as real == (|xs[1..]| as real) + 1.0;
      assert lo * (|xs| as real) == lo * (|xs[1..]| as real) + lo;
      assert hi * (|xs| as real) == hi * (|xs[1..]| as real) + hi;
    }
  }

  lemma Scale(a: real, b: real, n: real)
    requires n > 0.0
    ensures a < b ==> a * n < b * n
  {
    if a < b {
      assert (b - a) * n > 0.0;
    }
  }

  lemma Quotient(total: real, n: real, lo: real, hi: real)
    requires n > 0.0 && lo * n <= total <= hi * n
    ensures lo <= total / n <= hi
  {
    var q := total / n;
    assert total == q * n;
    Scale(q, lo, n);
    Scale(hi, q, n);
  }

  function Count<T>(p: T -> bool, s: seq<T>): nat {
    if s == [] then 0 else (if p(s[0]) then 1 else 0) + Count(p, s[1..])
  }

  lemma {:induction false} CountAppend<T>(p: T -> bool, a: seq<T>, b: seq<T>)
    ensures Count(p, a + b) == Count(p, a) + Count(p, b)
  {
    if a == [] {
      assert a + b == b;
    } else {
      assert (a + b)[1..] == a[1..] + b;
      CountAppend(p, a[1..], b);
    }
  }

  lemma {:induction false} CountRemove<T>(p: T -> bool, s: seq<T>, k: nat)
    requires k < |s|
    ensures Count(p, s) == (if p(s[k]) then 1 else 0) + Count(p, RemoveAt(s, k))
  {
    assert s == s[..k] + ([s[k]] + s[k + 1..]);
    CountAppend(p, s[..k], [s[k]] + s[k + 1..]);
    CountAppend(p, s[..k], s[k + 1..]);
  }

  lemma {:induction false} CountOfPermutation<T>(p: T -> bool, a: seq<T>, b: seq<T>)
    requires multiset(a) == multiset(b)
    ensures Count(p, a) == Count(p, b)
    decreases |a|
  {
    assert |multiset(a)| == |a| && |multiset(b)| == |b|;
    if a == [] {
    } else {
      SamePosition(a, b, a[0]);
      var k :| 0 <= k < |b| && b[k] == a[0];
      RemoveAtMultiset(b, k);
      RemoveAtMultiset(a, 0);
      CountOfPermutation(p, RemoveAt(a, 0), RemoveAt(b, k));
      CountRemove(p, a, 0);
      CountRemove(p, b, k);
    }
  }

  lemma {:induction false} CountAll<T>(p: T -> bool, s: seq<T>)
    requires forall i :: 0 <= i < |s| ==> p(s[i])
    ensures Count(p, s) == |s|
  {
    if s == [] {
    } else {
      CountAll(p, s[1..]);
    }
  }

  function AtMostV(v: real): real -> bool { (x: real) => x <= v }
  function AtLeastV(v: real): real -> bool { (x: real) => v <= x }

  /** More than half of the values are at most the median and at least half are at least it: of an even number of
      values it is the upper one of the two in the middle. */
  lemma {:induction false} MedianSplits(xs: seq<real>, median: real)
    requires xs != [] && IsMedian(median, xs)
    ensures median in xs
    ensures Count(AtMostV(median), xs) >= |xs| / 2 + 1 && Count(AtLeastV(median), xs) >= |xs| - |xs| / 2
  {
    var sorted :| SortOf(sorted, xs, AtMost) && |sorted| == |xs| && median == sorted[|xs| / 2];
    var h := |xs| / 2;
    SamePosition(sorted, xs, median);
    assert sorted == sorted[..h + 1] + sorted[h + 1..] == sorted[..h] + sorted[h..];
    forall i | 0 <= i <= h ensures sorted[i] <= median {
      assert i < h ==> AtMost(sorted[i], sorted[h]);
    }
    forall i | h <= i < |sorted| ensures median <= sorted[i] {
      assert h < i ==> AtMost(sorted[h], sorted[i]);
    }
    CountAppend(AtMostV(median), sorted[..h + 1], sorted[h + 1..]);
    CountAll(AtMostV(median), sorted[..h + 1]);
    CountAppend(AtLeastV(median), sorted[..h], sorted[h..]);
    CountAll(AtLeastV(median), sorted[h..]);
    CountOfPermutation(AtMostV(median), sorted, xs);
    CountOfPermutation(AtLeastV(median), sorted, xs);
  }

  lemma {:induction false} MeanBetween(xs: seq<real>, lo: real, hi: real)
    requires xs != [] && forall x :: x in xs ==> lo <= x <= hi
    ensures lo <= Sum(xs) / (|xs| as real) <= hi
  {
    SumBounds(xs, lo, hi);
    Quotient(Sum(xs), |xs| as real, lo, hi);
  }

  /** The mean lies between the reported extremes, whatever the latencies are. */
  lemma {:induction false} MeanLiesBetween(rankings: seq<CoreRanking>, stats: TopologyStats)
    requires IsSummary(rankings, stats) && Latencies(rankings) != []
    ensures stats.min <= stats.mean <= stats.max
  {
    RunningMinBounds(Latencies(rankings));
    RunningMaxBounds(Latencies(rankings));
    MeanBetween(Latencies(rankings), stats.min, stats.max);
  }

  lemma QuotientTimes(total: real, n: real)
    requires n > 0.0
    ensures total / n * n == total
  {}

  /** It is their average: times their number it is their sum. */
  lemma {:induction false} MeanOfLatencies(rankings: seq<CoreRanking>, stats: TopologyStats)
    requires IsSummary(rankings, stats) && Latencies(rankings) != []
    ensures stats.mean * (|Latencies(rankings)| as real) == Sum(Latencies(rankings))
  {
    QuotientTimes(Sum(Latencies(rankings)), |Latencies(rankings)| as real);
  }

  lemma {:induction false} MedianLiesBetween(rankings: seq<CoreRanking>, stats: TopologyStats)
    requires IsSummary(rankings, stats) && Latencies(rankings) != []
    ensures stats.min <= stats.median <= stats.max
    ensures Count(AtMostV(stats.median), Latencies(rankings)) >= |Latencies(rankings)| / 2 + 1
    ensures Count(AtLeastV(stats.median), Latencies(rankings)) >= |Latencies(rankings)| - |Latencies(rankings)| / 2
  {
    RunningMinBounds(Latencies(rankings));
    RunningMaxBounds(Latencies(rankings));
    MedianSplits(Latencies(rankings), stats.median);
  }

  // ---------------------------------------------------------------- on the rankings of an update

  function TopologySocket(c: CoreInfo): int { c.socket }
  function TopologySockets(topology: seq<CoreInfo>): set<int> { Elements(Map(TopologySocket, topology)) }

  lemma {:induction false} InAllNeighbors(rankings: seq<CoreRanking>, n: Neighbor)
    ensures n in AllNeighbors(rankings) <==> exists i :: 0 <= i < |rankings| && n in rankings[i].ranking
  {
    if rankings == [] {
    } else {
      InAllNeighbors(rankings[..|rankings| - 1], n);
    }
  }

  lemma {:induction false} SocketsMentioned(c: seq<CoreRanking>, topology: seq<CoreInfo>, m: Measurer, rounds: nat)
    requires rounds > 0 && Published(c, topology, m, rounds) && |topology| != 1
    ensures MentionedSockets(c) == TopologySockets(topology)
  {
    var all := AllNeighbors(c);
    forall s | s in MentionedSockets(c) ensures s in TopologySockets(topology) {
      var k :| 0 <= k < |all| && Map(SocketOf, all)[k] == s;
      InAllNeighbors(c, all[k]);
      var i :| 0 <= i < |c| && all[k] in c[i].ranking;
      InPublishedRow(c, topology, m, rounds, i, all[k]);
      var j :| 0 <= j < |topology| && j != i && all[k] == NeighborAt(topology, m, rounds, i, j);
      assert Map(TopologySocket, topology)[j] == s;
    }
    forall s | s in TopologySockets(topology) ensures s in MentionedSockets(c) {
      var j :| 0 <= j < |topology| && Map(TopologySocket, topology)[j] == s;
      var i := if j == 0 then 1 else 0;
      var n := NeighborAt(topology, m, rounds, i, j);
      InPublishedRow(c, topology, m, rounds, i, n);
      InAllNeighbors(c, n);
      var k :| 0 <= k < |all| && all[k] == n;
      assert Map(SocketOf, all)[k] == s;
    }
  }

  lemma {:induction false} CpusMentioned(c: seq<CoreRanking>, topology: seq<CoreInfo>, m: Measurer, rounds: nat)
    requires rounds > 0 && DistinctCpus(topology) && Published(c, topology, m, rounds)
    ensures |MentionedCpus(c)| == |topology|
  {
    var all := AllNeighbors(c);
    PublishedSources(c, topology, m, rounds);
    forall x | x in Elements(Cpus(all)) ensures x in Elements(Sources(c)) {
      var k :| 0 <= k < |all| && Cpus(all)[k] == x;
      InAllNeighbors(c, all[k]);
      var i :| 0 <= i < |c| && all[k] in c[i].ranking;
      InPublishedRow(c, topology, m, rounds, i, all[k]);
      var j :| 0 <= j < |topology| && j != i && all[k] == NeighborAt(topology, m, rounds, i, j);
      assert Sources(c)[j] == x;
    }
    assert MentionedCpus(c) == Elements(Sources(c));
    CardinalityOfDistinct(Sources(c));
  }

  /** For an update's rankings the CPU count is right, and the socket count is right except on a machine with a
      single CPU: sockets are read off neighbours, and a lone CPU has none. */
  lemma {:induction false} CountsOfPublished(c: seq<CoreRanking>, topology: seq<CoreInfo>, m: Measurer,
      rounds: nat, stats: TopologyStats)
    requires rounds > 0 && DistinctCpus(topology) && Published(c, topology, m, rounds) && CountsAre(stats, c)
    ensures stats.cpuCount == |topology|
    ensures stats.socketCount == |TopologySockets(topology)| <==> |topology| != 1
    ensures |topology| == 1 ==> stats.socketCount == 0
  {
    CpusMentioned(c, topology, m, rounds);
    if |topology| == 1 {
      assert c[..0] == [];
      assert c[0].ranking == [] by {
        RowLengthOfPublished(c, topology, m, rounds, 0);
      }
      assert AllNeighbors(c) == [];
      assert Map(TopologySocket, topology)[0] in TopologySockets(topology);
    } else {
      SocketsMentioned(c, topology, m, rounds);
      if c == [] {
        assert TopologySockets(topology) == {};
      }
    }
  }

  lemma {:induction false} NeighborCount(c: seq<CoreRanking>, k: nat)
    requires forall i :: 0 <= i < |c| ==> |c[i].ranking| == k
    ensures |AllNeighbors(c)| == |c| * k
  {
    if c == [] {
    } else {
      NeighborCount(c[..|c| - 1], k);
      assert |c| * k == (|c| - 1) * k + k;
    }
  }

  /** The statistics of an update's ranking are over one latency for each ordered pair of different cores; a machine
      with fewer than two has none, and all of its statistics are 0. */
  lemma {:induction false} LatenciesOfPublished(c: seq<CoreRanking>, topology: seq<CoreInfo>, m: Measurer, rounds: nat,
      stats: TopologyStats)
    requires rounds > 0 && DistinctCpus(topology) && Published(c, topology, m, rounds) && IsSummary(c, stats)
    ensures |Latencies(c)| == |topology| * (|topology| - 1)
    ensures |topology| < 2 ==> stats == TopologyStats(|topology|, 0, 0.0, 0.0, 0.0, 0.0)
  {
    if topology == [] {
      assert AllNeighbors(c) == [];
    } else {
      forall i | 0 <= i < |c| ensures |c[i].ranking| == |topology| - 1 {
        RowLengthOfPublished(c, topology, m, rounds, i);
      }
      NeighborCount(c, |topology| - 1);
    }
    CountsOfPublished(c, topology, m, rounds, stats);
    if topology == [] {
      assert TopologySockets(topology) == {};
    }
  }
}
