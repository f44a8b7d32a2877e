/** A selection is the best there is for its primary: no other choice of as many cores is nearer. */
module Nearest {
  import opened Collections
  import opened Ranking
  import opened Allocator

  function LatencyIn(cpus: set<int>): Neighbor -> real {
    (n: Neighbor) => if n.cpu in cpus then n.latency else 0.0
  }

  /** The total latency from the row's core to the cores in the set. */
  function TotalTo(row: seq<Neighbor>, cpus: set<int>): real {
    Sum(Map(LatencyIn(cpus), row))
  }

  lemma {:induction false} TotalToLast(row: seq<Neighbor>, cpus: set<int>)
    requires row != []
    ensures TotalTo(row, cpus) == TotalTo(row[..|row| - 1], cpus) + LatencyIn(cpus)(row[|row| - 1])
  {
    var f := LatencyIn(cpus);
    var init, last := row[..|row| - 1], row[|row| - 1];
    assert Map(f, row) == Map(f, init) + [f(last)];
    SumAppend(Map(f, init), [f(last)]);
  }

  /** Growing the set by a core that is not in the row changes nothing. */
  lemma {:induction false} TotalToAgrees(row: seq<Neighbor>, s: set<int>, t: set<int>)
    requires forall i :: 0 <= i < |row| ==> (row[i].cpu in s <==> row[i].cpu in t)
    ensures TotalTo(row, s) == TotalTo(row, t)
  {
    assert Map(LatencyIn(s), row) == Map(LatencyIn(t), row);
  }

  predicate PrefixLeast(row: seq<Neighbor>, cpus: set<int>)
    requires |cpus| <= |row|
  {
    TotalTo(row, Elements(Cpus(row[..|cpus|]))) <= TotalTo(row, cpus)
  }

  lemma {:induction false} FitsInRow(row: seq<Neighbor>, cpus: set<int>)
    requires Distinct(Cpus(row)) && cpus <= Elements(Cpus(row))
    ensures |cpus| <= |row|
  {
    CardinalityOfDistinct(Cpus(row));
    SubsetSize(cpus, Elements(Cpus(row)));
  }

  lemma {:induction false} TotalWithLast(row: seq<Neighbor>, cpus: set<int>)
    requires row != [] && Distinct(Cpus(row)) && row[|row| - 1].cpu in cpus
    ensures var init, last := row[..|row| - 1], row[|row| - 1];
            TotalTo(row, cpus) == TotalTo(init, cpus - {last.cpu}) + last.latency
  {
    var init, last := row[..|row| - 1], row[|row| - 1];
    TotalToLast(row, cpus);
    forall i | 0 <= i < |init| ensures init[i].cpu != last.cpu {
      assert Cpus(row)[i] == init[i].cpu && Cpus(row)[|row| - 1] == last.cpu;
    }
    TotalToAgrees(init, cpus, cpus - {last.cpu});
  }

  lemma InitOfRow(row: seq<Neighbor>)
    requires row != [] && SortedBy(row, ByLatency) && Distinct(Cpus(row))
    ensures var init := row[..|row| - 1];
            SortedBy(init, ByLatency) && Distinct(Cpus(init)) &&
            Elements(Cpus(row)) == Elements(Cpus(init)) + {row[|row| - 1].cpu} &&
            row[|row| - 1].cpu !in Elements(Cpus(init))
  {
    var init := row[..|row| - 1];
    assert Cpus(row) == Cpus(init) + [row[|row| - 1].cpu];
  }

  function Latency(n: Neighbor): real { n.latency }

  lemma NotInPrefix(row: seq<Neighbor>, k: nat, i: nat)
    requires Distinct(Cpus(row)) && k <= |row| && i < |row|
    ensures row[i].cpu in Elements(Cpus(row[..k])) <==> i < k
  {
    assert Cpus(row)[i] == row[i].cpu;
    var p := Cpus(row[..k]);
    assert forall j :: 0 <= j < k ==> p[j] == Cpus(row)[j];
    if i < k {
      assert p[i] == row[i].cpu;
    }
  }

  lemma {:induction false} TotalOfPrefix(row: seq<Neighbor>, k: nat)
    requires Distinct(Cpus(row)) && k <= |row|
    ensures TotalTo(row, Elements(Cpus(row[..k]))) == Sum(Map(Latency, row[..k]))
    decreases |row|
  {
    var cpus := Elements(Cpus(row[..k]));
    if k == |row| {
      forall i | 0 <= i < |row| ensures row[i].cpu in cpus {
        NotInPrefix(row, k, i);
      }
      assert row[..k] == row;
      assert Map(LatencyIn(cpus), row) == Map(Latency, row);
    } else {
      var init := row[..|row| - 1];
      assert Cpus(row) == Cpus(init) + [row[|row| - 1].cpu];
      TotalToLast(row, cpus);
      NotInPrefix(row, k, |row| - 1);
      TotalOfPrefix(init, k);
      assert init[..k] == row[..k];
    }
  }

  /** Counting the k-th core as well adds its latency, at most that of the last core. */
  lemma {:induction false} PrefixGrows(row: seq<Neighbor>, k: nat)
    requires SortedBy(row, ByLatency) && Distinct(Cpus(row)) && 0 < k <= |row|
    ensures var init, last := row[..|row| - 1], row[|row| - 1];
            TotalTo(row, Elements(Cpus(row[..k])))
            <= TotalTo(init, Elements(Cpus(row[..k - 1]))) + last.latency
  {
    TotalOfPrefix(row, k);
    var init := row[..|row| - 1];
    InitOfRow(row);
    TotalOfPrefix(init, k - 1);
    assert init[..k - 1] == row[..k - 1];
    assert row[..k] == row[..k - 1] + [row[k - 1]];
    assert Map(Latency, row[..k]) == Map(Latency, row[..k - 1]) + [row[k - 1].latency];
    SumAppend(Map(Latency, row[..k - 1]), [row[k - 1].latency]);
    assert k < |row| ==> ByLatency(row[k - 1], row[|row| - 1]);
  }

  lemma {:induction false} LastChosen(row: seq<Neighbor>, cpus: set<int>)
    requires row != [] && SortedBy(row, ByLatency) && Distinct(Cpus(row)) && |cpus| <= |row|
    requires row[|row| - 1].cpu in cpus
    requires PrefixLeast(row[..|row| - 1], cpus - {row[|row| - 1].cpu})
    ensures PrefixLeast(row, cpus)
  {
    var k := |cpus|;
    var last := row[|row| - 1];
    TotalWithLast(row, cpus);
    assert |cpus - {last.cpu}| == k - 1;
    assert row[..|row| - 1][..k - 1] == row[..k - 1];
    PrefixGrows(row, k);
  }

  lemma {:induction false} LastNotChosen(row: seq<Neighbor>, cpus: set<int>)
    requires row != [] && Distinct(Cpus(row)) && |cpus| < |row|
    requires row[|row| - 1].cpu !in cpus
    requires PrefixLeast(row[..|row| - 1], cpus)
    ensures PrefixLeast(row, cpus)
  {
    var k := |cpus|;
    var init := row[..|row| - 1];
    TotalToLast(row, cpus);
    TotalToLast(row, Elements(Cpus(row[..k])));
    assert init[..k] == row[..k];
    NotInPrefix(row, k, |row| - 1);
  }

  /** The exchange argument, from the far end: if the last core is chosen it costs at least what the k-th
      would; if it is not, it plays no part. */
  lemma {:induction false} PrefixIsLeast(row: seq<Neighbor>, cpus: set<int>)
    requires SortedBy(row, ByLatency) && Distinct(Cpus(row))
    requires cpus <= Elements(Cpus(row)) && |cpus| <= |row|
    ensures PrefixLeast(row, cpus)
    decreases |row|
  {
    if row == [] || cpus == {} {
      TotalToAgrees(row, Elements(Cpus(row[..|cpus|])), cpus);
    } else {
      var init, last := row[..|row| - 1], row[|row| - 1];
      InitOfRow(row);
      if last.cpu in cpus {
        FitsInRow(init, cpus - {last.cpu});
        PrefixIsLeast(init, cpus - {last.cpu});
        LastChosen(row, cpus);
      } else {
        FitsInRow(init, cpus);
        PrefixIsLeast(init, cpus);
        LastNotChosen(row, cpus);
      }
    }
  }

  /** The cores a selection adds to its primary. */
  function Companions(s: seq<int>): set<int>
    requires s != []
  {
    Elements(s[1..])
  }

  lemma {:induction false} CompanionsArePrefix(c: seq<CoreRanking>, i: nat, k: nat)
    requires ValidRankings(c) && i < |c| && 0 < k <= |c|
    ensures k - 1 <= |c[i].ranking|
    ensures Companions(Pick(c[i], k)) == Elements(Cpus(c[i].ranking[..k - 1]))
  {
    RowLength(c, i);
    assert Pick(c[i], k)[1..] == Cpus(c[i].ranking[..k - 1]);
  }

  /** Among all sets of k - 1 other cores, the cores selected beside the primary have the least total latency
      from it, whatever order the sort gave to equal latencies. */
  lemma {:induction false} LeastTotalLatency(c: seq<CoreRanking>, i: nat, k: nat, others: set<int>)
    requires ValidRankings(c) && i < |c| && 0 < k <= |c|
    requires others <= Elements(Sources(c)) - {c[i].cpu} && |others| == k - 1
    ensures TotalTo(c[i].ranking, Companions(Pick(c[i], k))) <= TotalTo(c[i].ranking, others)
  {
    assert ValidRow(c, i);
    CompanionsArePrefix(c, i, k);
    FitsInRow(c[i].ranking, others);
    PrefixIsLeast(c[i].ranking, others);
  }

  /** As many cores as the first k of the row cannot all be among the first k - 1. */
  lemma {:induction false} OneIsFar(row: seq<Neighbor>, k: nat, others: set<int>) returns (q: nat)
    requires Distinct(Cpus(row)) && 0 < k <= |row| && others <= Elements(Cpus(row)) && |others| == k
    ensures k - 1 <= q < |row| && row[q].cpu in others
  {
    var near := Elements(Cpus(row[..k - 1]));
    assert Cpus(row[..k - 1]) == Cpus(row)[..k - 1];
    CardinalityOfDistinct(Cpus(row[..k - 1]));
    if others <= near {
      SubsetSize(others, near);
    }
    var cpu :| cpu in others && cpu !in near;
    assert cpu in Cpus(row);
    q :| 0 <= q < |row| && Cpus(row)[q] == cpu;
    NotInPrefix(row, k - 1, q);
  }

  lemma {:induction false} FarthestOf(row: seq<Neighbor>, k: nat, q: nat)
    requires SortedBy(row, ByLatency) && Distinct(Cpus(row)) && k <= |row| && k <= q + 1 && q < |row|
    ensures forall n :: n in row && n.cpu in Elements(Cpus(row[..k])) ==> n.latency <= row[q].latency
  {
    forall n | n in row && n.cpu in Elements(Cpus(row[..k])) ensures n.latency <= row[q].latency {
      var p :| 0 <= p < |row| && row[p] == n;
      NotInPrefix(row, k, p);
      assert p < q ==> ByLatency(row[p], row[q]);
    }
  }

  /** And the least greatest latency: some core of the other set is at least as far as all selected ones. */
  lemma {:induction false} LeastGreatestLatency(c: seq<CoreRanking>, i: nat, k: nat, others: set<int>)
    requires ValidRankings(c) && i < |c| && 1 < k <= |c|
    requires others <= Elements(Sources(c)) - {c[i].cpu} && |others| == k - 1
    ensures exists far :: far in c[i].ranking && far.cpu in others &&
              forall n :: n in c[i].ranking && n.cpu in Companions(Pick(c[i], k)) ==> n.latency <= far.latency
  {
    assert ValidRow(c, i);
    CompanionsArePrefix(c, i, k);
    var row := c[i].ranking;
    var q := OneIsFar(row, k - 1, others);
    FarthestOf(row, k - 1, q);
    assert row[q] in row && row[q].cpu in others;
  }

  /** TotalTo over a published row adds up the measured means, so it does not depend on how the row is sorted. */
  lemma {:induction false} TotalToIsMeasured(c: seq<CoreRanking>, topology: seq<CoreInfo>, m: Measurer,
      rounds: nat, i: nat, cpus: set<int>)
    requires rounds > 0 && Published(c, topology, m, rounds) && i < |c|
    ensures TotalTo(c[i].ranking, cpus) == TotalTo(NeighborsOf(topology, m, rounds, i), cpus)
  {
    assert Ranks(c[i], topology, m, rounds, i);
    MapPermutation(LatencyIn(cpus), c[i].ranking, NeighborsOf(topology, m, rounds, i));
    SumOfPermutation(Map(LatencyIn(cpus), c[i].ranking), Map(LatencyIn(cpus), NeighborsOf(topology, m, rounds, i)));
  }
}
