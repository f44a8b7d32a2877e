/** What the heatmap reads back out of a ranking: a socket for every CPU, a latency for every pair, and the CPUs
    ordered by socket. */
module HeatmapTables {
  import opened Collections
  import opened Ranking
  import opened Summary

  /** A lookup in a map with numeric values: zero when the key is missing. */
  function SocketAt(sockets: map<int, int>, cpu: int): int {
    if cpu in sockets then sockets[cpu] else 0
  }

  function LatencyAt(latencies: map<int, map<int, real>>, src: int, dst: int): real {
    if src in latencies && dst in latencies[src] then latencies[src][dst] else 0.0
  }

  function SocketTable(ns: seq<Neighbor>): map<int, int> {
    if ns == [] then map[]
    else var last := ns[|ns| - 1]; SocketTable(ns[..|ns| - 1])[last.cpu := last.socket]
  }

  function RowTable(start: map<int, real>, row: seq<Neighbor>): map<int, real> {
    if row == [] then start
    else var last := row[|row| - 1]; RowTable(start, row[..|row| - 1])[last.cpu := last.latency]
  }

  function RowStart(latencies: map<int, map<int, real>>, cpu: int): map<int, real> {
    (if cpu in latencies then latencies[cpu] else map[])[cpu := 0.0]
  }

  function LatencyTable(rankings: seq<CoreRanking>): map<int, map<int, real>> {
    if rankings == [] then map[]
    else
      var before, r := LatencyTable(rankings[..|rankings| - 1]), rankings[|rankings| - 1];
      before[r.cpu := RowTable(RowStart(before, r.cpu), r.ranking)]
  }

  lemma RankingsNext(before: seq<CoreRanking>, r: CoreRanking)
    ensures AllNeighbors(before + [r]) == AllNeighbors(before) + r.ranking
    ensures LatencyTable(before + [r]) ==
              LatencyTable(before)[r.cpu := RowTable(RowStart(LatencyTable(before), r.cpu), r.ranking)]
  {
    assert (before + [r])[..|before|] == before;
  }

  lemma TablesNext(ns: seq<Neighbor>, start: map<int, real>, row: seq<Neighbor>, n: Neighbor)
    ensures SocketTable(ns + [n]) == SocketTable(ns)[n.cpu := n.socket]
    ensures RowTable(start, row + [n]) == RowTable(start, row)[n.cpu := n.latency]
  {
    assert (ns + [n])[..|ns|] == ns && (row + [n])[..|row|] == row;
  }

  function SocketOrder(sockets: map<int, int>): (int, int) -> bool {
    (a, b) => SocketAt(sockets, a) < SocketAt(sockets, b) || (SocketAt(sockets, a) == SocketAt(sockets, b) && a <= b)
  }

  lemma SocketOrderIsAPreorder(sockets: map<int, int>)
    ensures TotalPreorder(SocketOrder(sockets))
  {}

  // ---------------------------------------------------------------- inverting a published ranking

  lemma {:induction false} SocketTableKnows(ns: seq<Neighbor>, cpu: int, socket: int)
    requires forall n :: n in ns && n.cpu == cpu ==> n.socket == socket
    ensures cpu in SocketTable(ns) <==> exists n :: n in ns && n.cpu == cpu
    ensures cpu in SocketTable(ns) ==> SocketTable(ns)[cpu] == socket
  {
    if ns == [] {
    } else {
      var init, last := ns[..|ns| - 1], ns[|ns| - 1];
      assert ns == init + [last];
      SocketTableKnows(init, cpu, socket);
      if last.cpu == cpu {
        assert last in ns;
      }
    }
  }

  /** On a machine with at least two CPUs the table gives every CPU the socket the topology gives it. */
  lemma {:induction false} SocketsAreRecovered(c: seq<CoreRanking>, topology: seq<CoreInfo>, m: Measurer,
      rounds: nat, j: nat)
    requires rounds > 0 && DistinctCpus(topology) && Published(c, topology, m, rounds)
    requires j < |topology| && |topology| > 1
    ensures SocketAt(SocketTable(AllNeighbors(c)), topology[j].cpu) == topology[j].socket
  {
    var all := AllNeighbors(c);
    var cpus := Map(TopologyCpu, topology);
    forall n | n in all && n.cpu == topology[j].cpu ensures n.socket == topology[j].socket {
      InAllNeighbors(c, n);
      var i :| 0 <= i < |c| && n in c[i].ranking;
      InPublishedRow(c, topology, m, rounds, i, n);
      var k :| 0 <= k < |topology| && k != i && n == NeighborAt(topology, m, rounds, i, k);
      assert cpus[k] == cpus[j];
      assert k == j;
    }
    SocketTableKnows(all, topology[j].cpu, topology[j].socket);
    var i := if j == 0 then 1 else 0;
    var n := NeighborAt(topology, m, rounds, i, j);
    InPublishedRow(c, topology, m, rounds, i, n);
    InAllNeighbors(c, n);
    assert n in all && n.cpu == topology[j].cpu;
  }

  lemma {:induction false} RowTableKnows(start: map<int, real>, row: seq<Neighbor>, x: int)
    requires Distinct(Cpus(row))
    ensures x !in Elements(Cpus(row)) ==> (x in RowTable(start, row) <==> x in start)
    ensures x !in Elements(Cpus(row)) && x in start ==> RowTable(start, row)[x] == start[x]
    ensures forall k :: 0 <= k < |row| && row[k].cpu == x ==>
              x in RowTable(start, row) && RowTable(start, row)[x] == row[k].latency
  {
    if row == [] {
    } else {
      var init, last := row[..|row| - 1], row[|row| - 1];
      assert Cpus(row) == Cpus(init) + [last.cpu];
      RowTableKnows(start, init, x);
      forall k | 0 <= k < |row| && row[k].cpu == x
        ensures x in RowTable(start, row) && RowTable(start, row)[x] == row[k].latency
      {
        assert Cpus(row)[k] == x && Cpus(row)[|row| - 1] == last.cpu;
        if k < |row| - 1 {
          assert init[k] == row[k];
        }
      }
    }
  }

  lemma {:induction false} LatencyTableKeys(c: seq<CoreRanking>, cpu: int)
    ensures cpu in LatencyTable(c) <==> cpu in Elements(Sources(c))
  {
    if c == [] {
    } else {
      var init, last := c[..|c| - 1], c[|c| - 1];
      assert Sources(c) == Sources(init) + [last.cpu];
      LatencyTableKeys(init, cpu);
    }
  }

  lemma {:induction false} LatencyTableRow(c: seq<CoreRanking>, i: nat)
    requires Distinct(Sources(c)) && i < |c|
    ensures c[i].cpu in LatencyTable(c)
    ensures LatencyTable(c)[c[i].cpu] == RowTable(map[c[i].cpu := 0.0], c[i].ranking)
    decreases |c|
  {
    var init, last := c[..|c| - 1], c[|c| - 1];
    assert Sources(c) == Sources(init) + [last.cpu];
    if i < |c| - 1 {
      assert Sources(c)[i] == c[i].cpu;
      LatencyTableRow(init, i);
    } else {
      LatencyTableKeys(init, last.cpu);
      assert RowStart(LatencyTable(init), last.cpu) == map[last.cpu := 0.0];
    }
  }

  /** The latency table is the measured matrix again: the mean for every pair, zero on the diagonal. */
  lemma {:induction false} LatenciesAreRecovered(c: seq<CoreRanking>, topology: seq<CoreInfo>, m: Measurer,
      rounds: nat, i: nat, j: nat)
    requires rounds > 0 && DistinctCpus(topology) && Published(c, topology, m, rounds)
    requires i < |topology| && j < |topology|
    ensures LatencyAt(LatencyTable(c), topology[i].cpu, topology[j].cpu) ==
              if i == j then 0.0 else Mean(m, i, j, rounds)
  {
    PublishedIsValid(c, topology, m, rounds);
    PublishedSources(c, topology, m, rounds);
    LatencyTableRow(c, i);
    assert ValidRow(c, i);
    var row, start := c[i].ranking, map[c[i].cpu := 0.0];
    RowTableKnows(start, row, topology[j].cpu);
    if i == j {
      assert topology[j].cpu !in Elements(Cpus(row));
    } else {
      var n := NeighborAt(topology, m, rounds, i, j);
      InPublishedRow(c, topology, m, rounds, i, n);
      var k :| 0 <= k < |row| && row[k] == n;
    }
  }

  // ---------------------------------------------------------------- the order of the CPUs

  /** The order of the CPUs on both axes. */
  ghost predicate AxisOf(ids: seq<int>, c: seq<CoreRanking>) {
    SortOf(ids, Sources(c), SocketOrder(SocketTable(AllNeighbors(c))))
  }

  lemma {:induction false} AxisIsPermutation(ids: seq<int>, c: seq<CoreRanking>, topology: seq<CoreInfo>, m: Measurer,
      rounds: nat)
    requires rounds > 0 && DistinctCpus(topology) && Published(c, topology, m, rounds) && AxisOf(ids, c)
    ensures |ids| == |topology| && Distinct(ids)
    ensures multiset(ids) == multiset(Map(TopologyCpu, topology))
    ensures Elements(ids) == Elements(Map(TopologyCpu, topology))
  {
    PublishedSources(c, topology, m, rounds);
    DistinctPermutation(Sources(c), ids);
    SameElements(ids, Sources(c));
    SamePosition(ids, Sources(c), 0);
  }

  /** The axis is the topology's CPUs, each once, in the order of socket and then number: two CPUs at positions
      r < s are different, and the first is on a lower socket, or on the same with a lower number. */
  lemma {:induction false} AxisIsOrdered(ids: seq<int>, c: seq<CoreRanking>, topology: seq<CoreInfo>, m: Measurer,
      rounds: nat, r: nat, s: nat, i: nat, j: nat)
    requires rounds > 0 && DistinctCpus(topology) && Published(c, topology, m, rounds) && AxisOf(ids, c)
    requires r < s < |ids| && i < |topology| && j < |topology|
    requires topology[i].cpu == ids[r] && topology[j].cpu == ids[s]
    ensures topology[i].socket < topology[j].socket || (topology[i].socket == topology[j].socket && ids[r] < ids[s])
  {
    AxisIsPermutation(ids, c, topology, m, rounds);
    var sockets := SocketTable(AllNeighbors(c));
    assert SocketOrder(sockets)(ids[r], ids[s]);
    SocketsAreRecovered(c, topology, m, rounds, i);
    SocketsAreRecovered(c, topology, m, rounds, j);
  }

  // ---------------------------------------------------------------- socket boundaries

  predicate IsBoundary(ids: seq<int>, sockets: map<int, int>, k: nat) {
    0 < k < |ids| && SocketAt(sockets, ids[k]) != SocketAt(sockets, ids[k - 1])
  }

  /** The boundaries below position `upto`, in ascending order. */
  function Boundaries(ids: seq<int>, sockets: map<int, int>, upto: nat): seq<nat> {
    if upto == 0 then []
    else Boundaries(ids, sockets, upto - 1) + if IsBoundary(ids, sockets, upto - 1) then [upto - 1] else []
  }

  lemma {:induction false} BoundariesAreAll(ids: seq<int>, sockets: map<int, int>, upto: nat, k: nat)
    ensures k in Boundaries(ids, sockets, upto) <==> k < upto && IsBoundary(ids, sockets, k)
    ensures forall p :: 0 <= p < |Boundaries(ids, sockets, upto)| ==> Boundaries(ids, sockets, upto)[p] < upto
    ensures forall p, q :: 0 <= p < q < |Boundaries(ids, sockets, upto)| ==>
              Boundaries(ids, sockets, upto)[p] < Boundaries(ids, sockets, upto)[q]
  {
    if upto == 0 {
    } else {
      BoundariesAreAll(ids, sockets, upto - 1, k);
    }
  }

  function SocketsOf(ids: seq<int>, sockets: map<int, int>): set<int> {
    set k | 0 <= k < |ids| :: SocketAt(sockets, ids[k])
  }

  /** CPUs of one socket sit together. */
  lemma SocketsAreContiguous(ids: seq<int>, sockets: map<int, int>, i: nat, j: nat, k: nat)
    requires SortedBy(ids, SocketOrder(sockets)) && i < j < k < |ids|
    requires SocketAt(sockets, ids[i]) == SocketAt(sockets, ids[k])
    ensures SocketAt(sockets, ids[j]) == SocketAt(sockets, ids[i])
  {
    assert SocketOrder(sockets)(ids[i], ids[j]) && SocketOrder(sockets)(ids[j], ids[k]);
  }

  lemma SocketsOfNext(ids: seq<int>, sockets: map<int, int>, k: nat)
    requires k < |ids|
    ensures SocketsOf(ids[..k + 1], sockets) == SocketsOf(ids[..k], sockets) + {SocketAt(sockets, ids[k])}
  {
    assert ids[..k + 1] == ids[..k] + [ids[k]];
    assert forall q :: 0 <= q < k ==> ids[..k + 1][q] == ids[..k][q];
  }

  /** A boundary is where a socket appears for the first time. */
  lemma {:induction false} BoundaryIsNewSocket(ids: seq<int>, sockets: map<int, int>, k: nat)
    requires SortedBy(ids, SocketOrder(sockets)) && 0 < k < |ids|
    ensures IsBoundary(ids, sockets, k) <==> SocketAt(sockets, ids[k]) !in SocketsOf(ids[..k], sockets)
  {
    assert ids[..k][k - 1] == ids[k - 1];
    if q :| 0 <= q < k && SocketAt(sockets, ids[..k][q]) == SocketAt(sockets, ids[k]) {
      assert ids[..k][q] == ids[q];
      if q < k - 1 {
        SocketsAreContiguous(ids, sockets, q, k - 1, k);
      }
    }
  }

  lemma GrowSet(s: set<int>, x: int)
    ensures |s + {x}| == if x in s then |s| else |s| + 1
  {
    if x in s {
      assert s + {x} == s;
    }
  }

  /** One boundary fewer than there are sockets. */
  lemma {:induction false} OneBoundaryPerSocket(ids: seq<int>, sockets: map<int, int>, upto: nat)
    requires SortedBy(ids, SocketOrder(sockets)) && 0 < upto <= |ids|
    ensures |Boundaries(ids, sockets, upto)| + 1 == |SocketsOf(ids[..upto], sockets)|
  {
    SocketsOfNext(ids, sockets, upto - 1);
    if upto == 1 {
      assert Boundaries(ids, sockets, 0) == [];
      assert SocketsOf(ids[..0], sockets) == {};
    } else {
      OneBoundaryPerSocket(ids, sockets, upto - 1);
      BoundaryIsNewSocket(ids, sockets, upto - 1);
      GrowSet(SocketsOf(ids[..upto - 1], sockets), SocketAt(sockets, ids[upto - 1]));
    }
  }

  /** The CPU at a place of the axis has a place in the topology, and the table knows its socket. */
  lemma {:induction false} PlaceInTopology(ids: seq<int>, c: seq<CoreRanking>, topology: seq<CoreInfo>,
      m: Measurer, rounds: nat, k: nat) returns (j: nat)
    requires rounds > 0 && DistinctCpus(topology) && Published(c, topology, m, rounds) && AxisOf(ids, c)
    requires |topology| > 1 && k < |ids|
    ensures j < |topology| && SocketAt(SocketTable(AllNeighbors(c)), ids[k]) == topology[j].socket
  {
    AxisIsPermutation(ids, c, topology, m, rounds);
    var cpus := Map(TopologyCpu, topology);
    assert ids[k] in Elements(cpus);
    j :| 0 <= j < |cpus| && cpus[j] == ids[k];
    SocketsAreRecovered(c, topology, m, rounds, j);
  }

  lemma {:induction false} PlaceOnAxis(ids: seq<int>, c: seq<CoreRanking>, topology: seq<CoreInfo>,
      m: Measurer, rounds: nat, j: nat) returns (k: nat)
    requires rounds > 0 && DistinctCpus(topology) && Published(c, topology, m, rounds) && AxisOf(ids, c)
    requires |topology| > 1 && j < |topology|
    ensures k < |ids| && SocketAt(SocketTable(AllNeighbors(c)), ids[k]) == topology[j].socket
  {
    AxisIsPermutation(ids, c, topology, m, rounds);
    var cpus := Map(TopologyCpu, topology);
    assert cpus[j] in Elements(ids);
    k :| 0 <= k < |ids| && ids[k] == cpus[j];
    SocketsAreRecovered(c, topology, m, rounds, j);
  }

  /** The sockets along the axis are those of the topology, for any machine with at least two CPUs. */
  lemma {:induction false} AxisSockets(ids: seq<int>, c: seq<CoreRanking>, topology: seq<CoreInfo>,
      m: Measurer, rounds: nat)
    requires rounds > 0 && DistinctCpus(topology) && Published(c, topology, m, rounds) && AxisOf(ids, c)
    requires |topology| > 1
    ensures SocketsOf(ids, SocketTable(AllNeighbors(c))) == TopologySockets(topology)
  {
    var sockets := SocketTable(AllNeighbors(c));
    var all := Map(TopologySocket, topology);
    forall k | 0 <= k < |ids| ensures SocketAt(sockets, ids[k]) in TopologySockets(topology) {
      var j := PlaceInTopology(ids, c, topology, m, rounds, k);
      assert all[j] == topology[j].socket;
    }
    forall s | s in TopologySockets(topology) ensures s in SocketsOf(ids, sockets) {
      var j :| 0 <= j < |all| && all[j] == s;
      var k := PlaceOnAxis(ids, c, topology, m, rounds, j);
    }
  }

  lemma {:induction false} OneBoundaryPerTopologySocket(ids: seq<int>, c: seq<CoreRanking>, topology: seq<CoreInfo>,
      m: Measurer, rounds: nat)
    requires rounds > 0 && DistinctCpus(topology) && Published(c, topology, m, rounds) && AxisOf(ids, c)
    requires |topology| > 0
    ensures |Boundaries(ids, SocketTable(AllNeighbors(c)), |ids|)| + 1 == |TopologySockets(topology)|
  {
    var sockets := SocketTable(AllNeighbors(c));
    AxisIsPermutation(ids, c, topology, m, rounds);
    OneBoundaryPerSocket(ids, sockets, |ids|);
    assert ids[..|ids|] == ids;
    if |topology| > 1 {
      AxisSockets(ids, c, topology, m, rounds);
    } else {
      assert SocketsOf(ids, sockets) == {SocketAt(sockets, ids[0])};
      assert TopologySockets(topology) == {topology[0].socket} by {
        assert Map(TopologySocket, topology) == [topology[0].socket];
      }
    }
  }

  /** Separators number one fewer than the sockets of the machine, and that is what the summary's socket count
      says too, except on a single-CPU machine, where the summary counts none. */
  lemma {:induction false} SeparatorCount(ids: seq<int>, c: seq<CoreRanking>, topology: seq<CoreInfo>, m: Measurer,
      rounds: nat, stats: TopologyStats)
    requires rounds > 0 && DistinctCpus(topology) && Published(c, topology, m, rounds) && AxisOf(ids, c)
    requires |topology| > 0 && CountsAre(stats, c)
    ensures var lines := |Boundaries(ids, SocketTable(AllNeighbors(c)), |ids|)|;
            && lines + 1 == |TopologySockets(topology)|
            && (lines + 1 == stats.socketCount <==> |topology| > 1)
  {
    OneBoundaryPerTopologySocket(ids, c, topology, m, rounds);
    CountsOfPublished(c, topology, m, rounds, stats);
  }

  lemma {:induction false} BoundaryIsSocketChange(ids: seq<int>, c: seq<CoreRanking>, topology: seq<CoreInfo>,
      m: Measurer, rounds: nat, k: nat, i: nat, j: nat)
    requires rounds > 0 && DistinctCpus(topology) && Published(c, topology, m, rounds) && AxisOf(ids, c)
    requires 0 < k < |ids| && i < |topology| && j < |topology|
    requires topology[i].cpu == ids[k - 1] && topology[j].cpu == ids[k]
    ensures |ids| == |topology|
    ensures IsBoundary(ids, SocketTable(AllNeighbors(c)), k) <==> topology[i].socket != topology[j].socket
  {
    AxisIsPermutation(ids, c, topology, m, rounds);
    SocketsAreRecovered(c, topology, m, rounds, i);
    SocketsAreRecovered(c, topology, m, rounds, j);
  }
}
