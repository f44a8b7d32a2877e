/** The heatmap: tables read back from the rankings, the canvas, and the cells and separators drawn on it. */
module Heatmap {
  import opened Collections
  import opened Ranking
  import opened Summary
  import opened HeatmapTables
  import opened Wrappers

  const CELL_SIZE := 40
  const PADDING_TOP := 100
  const BASE_PADDING_LEFT := 80
  const TABLE_GAP := 40
  const TABLE_WIDTH := 300
  const ROW_HEIGHT := 40

  datatype Mode = ModeDefault | ModeAffinity

  datatype Dims = Dims(width: int, height: int, paddingLeft: int)

  datatype Fill = Grey | Heat(ratio: real)
  datatype Cell = Cell(x: int, y: int, fill: Fill, latency: real)
  datatype Line = Line(x1: int, y1: int, x2: int, y2: int)
  datatype CpuLabel = CpuLabel(x: int, y: int, cpu: int)
  datatype AffinityRow = AffinityRow(y: int, lineY: int, rectY: int, vmid: int, cpus: seq<int>, shaded: bool)

  datatype Svg = Svg(
    dims: Dims, rowLabels: seq<CpuLabel>, colLabels: seq<CpuLabel>, hLines: seq<Line>, vLines: seq<Line>,
    cells: seq<Cell>, affinityX: int, affinityY: int, affinityRows: seq<AffinityRow>)

  // ---------------------------------------------------------------- the canvas

  function Max(a: int, b: int): int { if a > b then a else b }

  /** Room for the title and the statistics line, in pixels. */
  function TextWidth(nameLength: nat, statsLength: nat): int {
    Max(nameLength * 12, statsLength * 8) + 40
  }

  function TableBottom(vms: nat): int { PADDING_TOP - 10 + 60 + Max(vms, 1) * ROW_HEIGHT + 20 }

  /** Room for the texts, the heatmap and, when it is shown, the affinity table beside it. CanvasIsLeast says how
      tight it is. */
  function Canvas(n: nat, nameLength: nat, statsLength: nat, mode: Mode, vms: nat): Dims {
    var heatmap := BASE_PADDING_LEFT + n * CELL_SIZE + 20;
    var width := Max(heatmap, TextWidth(nameLength, statsLength));
    var bottom := PADDING_TOP + n * CELL_SIZE + 20;
    Dims(
      if mode.ModeAffinity? then width + TABLE_GAP + TABLE_WIDTH else width,
      if mode.ModeAffinity? then Max(bottom, TableBottom(vms)) else bottom,
      BASE_PADDING_LEFT + (width - heatmap) / 2)
  }

  // ---------------------------------------------------------------- what is drawn

  /** What drawing depends on. */
  datatype View = View(
    ids: seq<int>, sockets: map<int, int>, latencies: map<int, map<int, real>>, maxLatency: real, dims: Dims)

  function Ratio(lat: real, max: real): real { if max > 0.0 then lat / max else 0.0 }

  function CellAt(v: View, row: nat, col: nat): Cell
    requires row < |v.ids| && col < |v.ids|
  {
    var src, dst := v.ids[row], v.ids[col];
    var lat := LatencyAt(v.latencies, src, dst);
    Cell(v.dims.paddingLeft + col * CELL_SIZE, PADDING_TOP + row * CELL_SIZE,
         if src == dst then Grey else Heat(Ratio(lat, v.maxLatency)), lat)
  }

  function RowCells(v: View, row: nat): seq<Cell>
    requires row < |v.ids|
  {
    seq(|v.ids|, col requires 0 <= col < |v.ids| => CellAt(v, row, col))
  }

  function Cells(v: View, rows: nat): seq<Cell>
    requires rows <= |v.ids|
  {
    if rows == 0 then [] else Cells(v, rows - 1) + RowCells(v, rows - 1)
  }

  function HLineAt(v: View): nat -> Line {
    (k: nat) =>
      var y := PADDING_TOP + k * CELL_SIZE;
      Line(v.dims.paddingLeft, y, v.dims.paddingLeft + |v.ids| * CELL_SIZE, y)
  }

  function VLineAt(v: View): nat -> Line {
    (k: nat) =>
      var x := v.dims.paddingLeft + k * CELL_SIZE;
      Line(x, PADDING_TOP, x, v.dims.height - 20)
  }

  function RowLabelAt(v: View, row: nat): CpuLabel
    requires row < |v.ids|
  {
    CpuLabel(v.dims.paddingLeft - 10, PADDING_TOP + row * CELL_SIZE + CELL_SIZE / 2, v.ids[row])
  }

  function ColLabelAt(v: View, col: nat): CpuLabel
    requires col < |v.ids|
  {
    CpuLabel(v.dims.paddingLeft + col * CELL_SIZE + CELL_SIZE / 2, PADDING_TOP - 10, v.ids[col])
  }

  predicate DrawsLines(hLines: seq<Line>, vLines: seq<Line>, v: View) {
    && hLines == Map(HLineAt(v), Boundaries(v.ids, v.sockets, |v.ids|))
    && vLines == Map(VLineAt(v), Boundaries(v.ids, v.sockets, |v.ids|))
  }

  predicate DrawsColumns(v: View, colLabels: seq<CpuLabel>, vLines: seq<Line>) {
    && |colLabels| == |v.ids|
    && (forall k :: 0 <= k < |v.ids| ==> colLabels[k] == ColLabelAt(v, k))
    && vLines == Map(VLineAt(v), Boundaries(v.ids, v.sockets, |v.ids|))
  }

  /** The drawn heatmap has a cell for every pair, row by row, a label for every row and column, and a line at
      every socket boundary in both directions. */
  predicate Draws(svg: Svg, v: View) {
    && svg.dims == v.dims
    && svg.cells == Cells(v, |v.ids|)
    && DrawsLines(svg.hLines, svg.vLines, v)
    && |svg.rowLabels| == |v.ids|
    && (forall k :: 0 <= k < |v.ids| ==> svg.rowLabels[k] == RowLabelAt(v, k))
    && DrawsColumns(v, svg.colLabels, svg.vLines)
  }

  /** The tables and the axis are those of the rankings. */
  ghost predicate ShowsRankings(v: View, c: seq<CoreRanking>) {
    v.sockets == SocketTable(AllNeighbors(c)) && v.latencies == LatencyTable(c) && AxisOf(v.ids, c)
  }

  predicate AtMostInt(a: int, b: int) { a <= b }

  /** Rows are 40 pixels high, the text in the middle of its box, the line at its lower edge. */
  predicate IsRow(row: AffinityRow, i: nat) {
    && row.y == 30 + i * 40 && row.lineY == row.y + 20 && row.rectY == row.y - 20
    && row.shaded == (i % 2 == 1)
  }

  function RowAt(i: nat, vmid: int, cpus: seq<int>): AffinityRow {
    AffinityRow(30 + i * ROW_HEIGHT, 50 + i * ROW_HEIGHT, 10 + i * ROW_HEIGHT, vmid, cpus, i % 2 == 1)
  }

  /** One table row for every VM, in ascending order, evenly spaced, every other one shaded. */
  predicate ListsAffinity(rows: seq<AffinityRow>, affinity: map<int, seq<int>>) {
    && |rows| == |affinity|
    && (forall i :: 0 <= i < |rows| ==>
          rows[i].vmid in affinity && rows[i].cpus == affinity[rows[i].vmid] && IsRow(rows[i], i))
    && (forall i, j :: 0 <= i < j < |rows| ==> rows[i].vmid < rows[j].vmid)
    && (forall vm :: vm in affinity ==> exists i :: 0 <= i < |rows| && rows[i].vmid == vm)
  }

  /** A coloured cell's place on the scale is its share of the greatest latency. */
  predicate HeatOf(c: Cell, max: real) {
    c.fill.Heat? ==> if max > 0.0 then c.fill.ratio * max == c.latency else c.fill.ratio == 0.0
  }

  lemma {:induction false} CellsHeat(v: View, rows: nat)
    requires rows <= |v.ids|
    ensures forall k :: 0 <= k < |Cells(v, rows)| ==> HeatOf(Cells(v, rows)[k], v.maxLatency)
  {
    if rows == 0 {
    } else {
      var last := rows - 1;
      CellsHeat(v, last);
      forall col: nat | col < |v.ids| ensures HeatOf(CellAt(v, last, col), v.maxLatency) {}
    }
  }

  /** The affinity table, to the right of the heatmap, in affinity mode only. */
  predicate ShowsAffinity(svg: Svg, v: View, mode: Mode, affinity: map<int, seq<int>>) {
    && ListsAffinity(svg.affinityRows, if mode == ModeAffinity then affinity else map[])
    && (mode == ModeAffinity ==>
          && svg.affinityX == v.dims.paddingLeft + |v.ids| * CELL_SIZE + TABLE_GAP
          && svg.affinityY == PADDING_TOP + 20)
  }

  lemma UpdateSame<K, V>(m: map<K, V>, k: K)
    requires k in m
    ensures m == m[k := m[k]]
  {}

  lemma UpdateTwice<K, V>(m: map<K, V>, k: K, v: V, w: V)
    ensures m[k := v][k := w] == m[k := w]
  {}

  lemma NextBoundary(f: nat -> Line, v: View, k: nat)
    requires k < |v.ids|
    ensures Map(f, Boundaries(v.ids, v.sockets, k + 1)) ==
              Map(f, Boundaries(v.ids, v.sockets, k)) + if IsBoundary(v.ids, v.sockets, k) then [f(k)] else []
  {
    var before := Boundaries(v.ids, v.sockets, k);
    if IsBoundary(v.ids, v.sockets, k) {
      assert Boundaries(v.ids, v.sockets, k + 1) == before + [k];
    } else {
      assert Boundaries(v.ids, v.sockets, k + 1) == before;
    }
  }

  class Heatmap {
    const rankings: seq<CoreRanking>
    const affinity: map<int, seq<int>>
    const nameLength: nat
    const statsLength: nat
    const mode: Mode
    const stats: TopologyStats

    var cpuIDs: seq<int>
    var cpuToSocket: map<int, int>
    var latencyMap: map<int, map<int, real>>
    var dims: Dims

    ghost function ViewOf(): View
      reads this
    {
      View(cpuIDs, cpuToSocket, latencyMap, stats.max, dims)
    }

    ghost predicate Prepared()
      reads this
    {
      ShowsRankings(ViewOf(), rankings)
    }

    /** nameLength and statsLength are the lengths of the CPU name and of the formatted statistics. */
    constructor (rankings: seq<CoreRanking>, stats: TopologyStats, affinity: map<int, seq<int>>,
                 nameLength: nat, statsLength: nat, mode: Mode)
      ensures this.rankings == rankings && this.stats == stats && this.affinity == affinity && this.mode == mode
      ensures this.nameLength == nameLength && this.statsLength == statsLength
      ensures Prepared()
      ensures dims == Canvas(|cpuIDs|, nameLength, statsLength, mode, |affinity|)
    {
      this.rankings, this.stats, this.affinity, this.mode := rankings, stats, affinity, mode;
      this.nameLength, this.statsLength := nameLength, statsLength;
      cpuIDs, cpuToSocket, latencyMap, dims := [], map[], map[], Dims(0, 0, 0);
      new;
      PrepareData();
      dims := CalculateDimensions();
    }

    ghost predicate TablesOf(c: seq<CoreRanking>)
      reads this
    {
      cpuToSocket == SocketTable(AllNeighbors(c)) && latencyMap == LatencyTable(c)
    }

    method StartRow(cpu: int)
      modifies this`latencyMap
      ensures latencyMap == old(latencyMap)[cpu := RowStart(old(latencyMap), cpu)]
    {
      if cpu !in latencyMap {
        latencyMap := latencyMap[cpu := map[]];
      }
      latencyMap := latencyMap[cpu := latencyMap[cpu][cpu := 0.0]];
    }

    /** The tables after the first k neighbours of a row, read on top of those `seen` before. */
    ghost predicate ReadUpTo(r: CoreRanking, k: nat, seen: seq<Neighbor>, start: map<int, map<int, real>>,
                             first: map<int, real>)
      reads this
      requires k <= |r.ranking|
    {
      && cpuToSocket == SocketTable(seen + r.ranking[..k])
      && latencyMap == start[r.cpu := RowTable(first, r.ranking[..k])]
    }

    method ReadNeighbor(r: CoreRanking, k: nat, ghost seen: seq<Neighbor>, ghost start: map<int, map<int, real>>,
                        ghost first: map<int, real>)
      requires k < |r.ranking| && ReadUpTo(r, k, seen, start, first)
      modifies this`cpuToSocket, this`latencyMap
      ensures ReadUpTo(r, k + 1, seen, start, first)
    {
      var n := r.ranking[k];
      NextPrefix(seen, r.ranking, k);
      assert r.ranking[..k + 1] == r.ranking[..k] + [n];
      TablesNext(seen + r.ranking[..k], first, r.ranking[..k], n);
      cpuToSocket := cpuToSocket[n.cpu := n.socket];
      var row := latencyMap[r.cpu];
      row := row[n.cpu := n.latency];
      UpdateTwice(start, r.cpu, latencyMap[r.cpu], row);
      latencyMap := latencyMap[r.cpu := row];
    }

    /** The inner loop of PrepareData. */
    method ReadNeighbors(r: CoreRanking, ghost seen: seq<Neighbor>)
      requires r.cpu in latencyMap && cpuToSocket == SocketTable(seen)
      modifies this`cpuToSocket, this`latencyMap
      ensures cpuToSocket == SocketTable(seen + r.ranking)
      ensures latencyMap == old(latencyMap)[r.cpu := RowTable(old(latencyMap)[r.cpu], r.ranking)]
    {
      ghost var start, first := latencyMap, latencyMap[r.cpu];
      UpdateSame(start, r.cpu);
      assert r.ranking[..0] == [] && seen + [] == seen;
      for k := 0 to |r.ranking|
        invariant ReadUpTo(r, k, seen, start, first)
      {
        ReadNeighbor(r, k, seen, start, first);
      }
      assert r.ranking[..|r.ranking|] == r.ranking;
    }

    method ReadRow(r: CoreRanking, ghost before: seq<CoreRanking>)
      requires TablesOf(before)
      modifies this`cpuToSocket, this`latencyMap
      ensures TablesOf(before + [r])
    {
      ghost var table := latencyMap;
      StartRow(r.cpu);
      UpdateTwice(table, r.cpu, latencyMap[r.cpu], RowTable(latencyMap[r.cpu], r.ranking));
      ReadNeighbors(r, AllNeighbors(before));
      RankingsNext(before, r);
    }

    method PrepareData()
      requires cpuIDs == [] && cpuToSocket == map[] && latencyMap == map[]
      modifies this
      ensures Prepared()
    {
      for i := 0 to |rankings|
        invariant cpuIDs == Sources(rankings[..i])
        invariant TablesOf(rankings[..i])
      {
        var r := rankings[i];
        assert Sources(rankings[..i + 1]) == Sources(rankings[..i]) + [r.cpu];
        cpuIDs := cpuIDs + [r.cpu];
        ReadRow(r, rankings[..i]);
        assert rankings[..i + 1] == rankings[..i] + [r];
      }
      assert rankings[..|rankings|] == rankings;
      SocketOrderIsAPreorder(cpuToSocket);
      cpuIDs := Sort(cpuIDs, SocketOrder(cpuToSocket));
    }

    method CalculateDimensions() returns (d: Dims)
      ensures d == Canvas(|cpuIDs|, nameLength, statsLength, mode, |affinity|)
    {
      var n := |cpuIDs|;
      var titleW := nameLength * 12;
      var statsW := statsLength * 8;
      var reqTextW := titleW;
      if statsW > reqTextW {
        reqTextW := statsW;
      }
      reqTextW := reqTextW + 40;
      var paddingLeft := BASE_PADDING_LEFT;
      var heatmapW := n * CELL_SIZE;
      var reqHeatmapW := paddingLeft + heatmapW + 20;
      var width := reqHeatmapW;
      if reqTextW > width {
        width := reqTextW;
        paddingLeft := paddingLeft + (width - reqHeatmapW) / 2;
      }
      var height := PADDING_TOP + n * CELL_SIZE + 20;
      if mode == ModeAffinity {
        width := width + TABLE_GAP + TABLE_WIDTH;
        var contentHeight := |affinity| * ROW_HEIGHT;
        if |affinity| == 0 {
          contentHeight := ROW_HEIGHT;
        }
        var reqHeight := (PADDING_TOP - 10) + (60 + contentHeight) + 20;
        if reqHeight > height {
          height := reqHeight;
        }
      }
      d := Dims(width, height, paddingLeft);
    }

    /** The label of a row, and the line above it if a socket begins there. */
    method DrawRowHead(row: nat) returns (cpuLabel: CpuLabel, line: seq<Line>)
      requires row < |cpuIDs|
      ensures cpuLabel == RowLabelAt(ViewOf(), row)
      ensures line == if IsBoundary(cpuIDs, cpuToSocket, row) then [HLineAt(ViewOf())(row)] else []
    {
      var y := PADDING_TOP + row * CELL_SIZE;
      cpuLabel := CpuLabel(dims.paddingLeft - 10, y + CELL_SIZE / 2, cpuIDs[row]);
      line := [];
      if row > 0 && SocketAt(cpuToSocket, cpuIDs[row]) != SocketAt(cpuToSocket, cpuIDs[row - 1]) {
        var heatmapWidth := |cpuIDs| * CELL_SIZE;
        line := [Line(dims.paddingLeft, y, dims.paddingLeft + heatmapWidth, y)];
      }
    }

    /** The cells of one row: the column loop of Generate. */
    method DrawRow(row: nat) returns (cells: seq<Cell>)
      requires row < |cpuIDs|
      ensures cells == RowCells(ViewOf(), row)
    {
      var src := cpuIDs[row];
      var y := PADDING_TOP + row * CELL_SIZE;
      cells := [];
      for col := 0 to |cpuIDs|
        invariant cells == RowCells(ViewOf(), row)[..col]
      {
        var dst := cpuIDs[col];
        var x := dims.paddingLeft + col * CELL_SIZE;
        var lat := LatencyAt(latencyMap, src, dst);
        var fill := Grey;
        if src != dst {
          var ratio := 0.0;
          if stats.max > 0.0 {
            ratio := lat / stats.max;
          }
          fill := Heat(ratio);
        }
        assert Cell(x, y, fill, lat) == RowCells(ViewOf(), row)[col];
        cells := cells + [Cell(x, y, fill, lat)];
      }
    }

    /** What the column loop adds on the first row only: column labels and vertical lines. */
    method DrawColumns() returns (colLabels: seq<CpuLabel>, vLines: seq<Line>)
      ensures DrawsColumns(ViewOf(), colLabels, vLines)
    {
      colLabels, vLines := [], [];
      for col := 0 to |cpuIDs|
        invariant |colLabels| == col && forall k :: 0 <= k < col ==> colLabels[k] == ColLabelAt(ViewOf(), k)
        invariant vLines == Map(VLineAt(ViewOf()), Boundaries(cpuIDs, cpuToSocket, col))
      {
        var x := dims.paddingLeft + col * CELL_SIZE;
        colLabels := colLabels + [CpuLabel(x + CELL_SIZE / 2, PADDING_TOP - 10, cpuIDs[col])];
        if col > 0 && SocketAt(cpuToSocket, cpuIDs[col]) != SocketAt(cpuToSocket, cpuIDs[col - 1]) {
          vLines := vLines + [Line(x, PADDING_TOP, x, dims.height - 20)];
        }
        NextBoundary(VLineAt(ViewOf()), ViewOf(), col);
      }
    }

    /** The row loop of Generate. */
    method DrawHeatmap() returns (svg: Svg)
      requires cpuIDs != []
      ensures Draws(svg, ViewOf())
      ensures svg.affinityRows == []
    {
      ghost var v := ViewOf();
      var rowLabels: seq<CpuLabel>, colLabels: seq<CpuLabel> := [], [];
      var hLines: seq<Line>, vLines: seq<Line> := [], [];
      var cells: seq<Cell> := [];
      for row := 0 to |cpuIDs|
        invariant |rowLabels| == row && forall k :: 0 <= k < row ==> rowLabels[k] == RowLabelAt(v, k)
        invariant hLines == Map(HLineAt(v), Boundaries(v.ids, v.sockets, row))
        invariant cells == Cells(v, row)
        invariant row > 0 ==> DrawsColumns(v, colLabels, vLines)
      {
        var cpuLabel, line := DrawRowHead(row);
        rowLabels := rowLabels + [cpuLabel];
        hLines := hLines + line;
        NextBoundary(HLineAt(v), v, row);
        var rowCells := DrawRow(row);
        cells := cells + rowCells;
        if row == 0 {
          colLabels, vLines := DrawColumns();
        }
      }
      svg := Svg(dims, rowLabels, colLabels, hLines, vLines, cells, 0, 0, []);
    }

    method Keys() returns (vmids: seq<int>)
      ensures Distinct(vmids) && Elements(vmids) == affinity.Keys
    {
      var todo := affinity.Keys;
      vmids := [];
      while todo != {}
        invariant todo <= affinity.Keys && Elements(vmids) == affinity.Keys - todo && Distinct(vmids)
        decreases |todo|
      {
        var vmid := AnyOf(todo);
        assert Elements(vmids + [vmid]) == Elements(vmids) + {vmid} && vmid !in Elements(vmids);
        vmids := vmids + [vmid];
        todo := todo - {vmid};
      }
    }

    method SortedKeys() returns (vmids: seq<int>)
      ensures forall vm :: vm in vmids <==> vm in affinity
      ensures |vmids| == |affinity|
      ensures forall i, j :: 0 <= i < j < |vmids| ==> vmids[i] < vmids[j]
    {
      var unsorted := Keys();
      CardinalityOfDistinct(unsorted);
      assert TotalPreorder(AtMostInt);
      vmids := Sort(unsorted, AtMostInt);
      DistinctPermutation(unsorted, vmids);
      SameElements(unsorted, vmids);
      SamePosition(unsorted, vmids, 0);
      forall i, j | 0 <= i < j < |vmids| ensures vmids[i] < vmids[j] {
        assert AtMostInt(vmids[i], vmids[j]);
      }
      assert forall vm :: vm in vmids <==> vm in Elements(vmids);
    }

    method DrawAffinity() returns (rows: seq<AffinityRow>)
      ensures ListsAffinity(rows, affinity)
    {
      var vmids := SortedKeys();
      forall k | 0 <= k < |vmids| ensures vmids[k] in affinity {
        assert vmids[k] in vmids;
      }
      var y := 30;
      rows := [];
      for i := 0 to |vmids|
        invariant y == 30 + i * ROW_HEIGHT && |rows| == i
        invariant forall k :: 0 <= k < i ==> rows[k] == RowAt(k, vmids[k], affinity[vmids[k]])
      {
        var vmid := vmids[i];
        var row := AffinityRow(y, y + 20, y - 20, vmid, affinity[vmid], i % 2 == 1);
        assert row == RowAt(i, vmid, affinity[vmid]);
        rows := rows + [row];
        y := y + ROW_HEIGHT;
      }
      forall vm | vm in affinity ensures exists i :: 0 <= i < |rows| && rows[i].vmid == vm {
        var i :| 0 <= i < |vmids| && vmids[i] == vm;
        assert rows[i].vmid == vm;
      }
    }

    /** Nothing to draw without rankings. */
    method Generate() returns (r: Option<Svg>)
      requires Prepared()
      ensures r.None? <==> rankings == []
      ensures r.Some? ==> Draws(r.value, ViewOf())
      ensures r.Some? ==> forall k :: 0 <= k < |r.value.cells| ==> HeatOf(r.value.cells[k], stats.max)
      ensures r.Some? ==> ShowsAffinity(r.value, ViewOf(), mode, affinity)
    {
      if |rankings| == 0 {
        return None;
      }
      SamePosition(cpuIDs, Sources(rankings), 0);
      var svg := DrawHeatmap();
      CellsHeat(ViewOf(), |cpuIDs|);
      if mode == ModeAffinity {
        var rows := DrawAffinity();
        svg := svg.(affinityX := dims.paddingLeft + |cpuIDs| * CELL_SIZE + TABLE_GAP, affinityY := PADDING_TOP + 20,
                    affinityRows := rows);
      }
      r := Some(svg);
    }
  }

  // ---------------------------------------------------------------- what the picture shows

  lemma {:induction false} CellCount(v: View, rows: nat)
    requires rows <= |v.ids|
    ensures |Cells(v, rows)| == rows * |v.ids|
  {
    if rows == 0 {
    } else {
      CellCount(v, rows - 1);
      assert rows * |v.ids| == (rows - 1) * |v.ids| + |v.ids|;
    }
  }

  lemma {:induction false} CellPosition(v: View, rows: nat, r: nat, c: nat)
    requires r < rows <= |v.ids| && c < |v.ids|
    ensures |Cells(v, rows)| == rows * |v.ids|
    ensures Index(|v.ids|, r, c) < |Cells(v, rows)| && Cells(v, rows)[Index(|v.ids|, r, c)] == CellAt(v, r, c)
    decreases rows
  {
    CellCount(v, rows - 1);
    var n := |v.ids|;
    assert rows * n == (rows - 1) * n + n;
    if r < rows - 1 {
      CellPosition(v, rows - 1, r, c);
    } else {
      assert Index(n, r, c) == (rows - 1) * n + c;
    }
  }

  lemma {:induction false} SameCpuSamePlace(ids: seq<int>, topology: seq<CoreInfo>, r: nat, s: nat, i: nat, j: nat)
    requires Distinct(ids) && DistinctCpus(topology)
    requires r < |ids| && s < |ids| && i < |topology| && j < |topology|
    requires topology[i].cpu == ids[r] && topology[j].cpu == ids[s]
    ensures (r == s <==> i == j) && (ids[r] == ids[s] <==> r == s)
  {
    var cpus := Map(TopologyCpu, topology);
    assert cpus[i] == ids[r] && cpus[j] == ids[s];
    assert i < j ==> cpus[i] != cpus[j];
    assert j < i ==> cpus[j] != cpus[i];
    assert r < s ==> ids[r] != ids[s];
    assert s < r ==> ids[s] != ids[r];
  }

  /** Round trip: the heatmap of an update's rankings has n * n cells, row by row, and the cell in row r and
      column s shows the mean latency measured from the CPU of row r to the CPU of column s, zero and grey on
      the diagonal, elsewhere coloured by its share of the greatest latency. */
  lemma {:induction false} HeatmapShowsMeasurements(cells: seq<Cell>, v: View, c: seq<CoreRanking>,
      topology: seq<CoreInfo>, m: Measurer, rounds: nat, r: nat, s: nat, i: nat, j: nat)
    requires rounds > 0 && DistinctCpus(topology) && Published(c, topology, m, rounds)
    requires ShowsRankings(v, c) && cells == Cells(v, |v.ids|)
    requires r < |v.ids| && s < |v.ids| && i < |topology| && j < |topology|
    requires topology[i].cpu == v.ids[r] && topology[j].cpu == v.ids[s]
    ensures |cells| == |topology| * |topology| && Index(|topology|, r, s) < |cells|
    ensures var cell := cells[Index(|topology|, r, s)];
            && cell.latency == (if i == j then 0.0 else Mean(m, i, j, rounds))
            && cell.x == v.dims.paddingLeft + s * 40
            && cell.y == 100 + r * 40
            && (cell.fill == Grey <==> r == s)
            && (r == s <==> i == j)
            && HeatOf(cell, v.maxLatency)
  {
    AxisIsPermutation(v.ids, c, topology, m, rounds);
    CellPosition(v, |v.ids|, r, s);
    CellsHeat(v, |v.ids|);
    LatenciesAreRecovered(c, topology, m, rounds, i, j);
    SameCpuSamePlace(v.ids, topology, r, s, i, j);
  }

  lemma {:induction false} LabelsOfAxis(svg: Svg, v: View, r: nat)
    requires Draws(svg, v) && r < |v.ids|
    ensures |svg.rowLabels| == |svg.colLabels| == |v.ids|
    ensures svg.rowLabels[r] == CpuLabel(v.dims.paddingLeft - 10, 100 + r * 40 + 20, v.ids[r])
    ensures svg.colLabels[r] == CpuLabel(v.dims.paddingLeft + r * 40 + 20, 90, v.ids[r])
  {}

  /** Each row and each column is labelled with the CPU whose measurements its cells show, level with those cells. */
  lemma {:induction false} LabelsNameTheirCpus(svg: Svg, v: View, c: seq<CoreRanking>, topology: seq<CoreInfo>,
      m: Measurer, rounds: nat, r: nat, s: nat, i: nat, j: nat)
    requires rounds > 0 && DistinctCpus(topology) && Published(c, topology, m, rounds)
    requires ShowsRankings(v, c) && Draws(svg, v)
    requires r < |v.ids| && s < |v.ids| && i < |topology| && j < |topology|
    requires topology[i].cpu == v.ids[r] && topology[j].cpu == v.ids[s]
    ensures |svg.rowLabels| == |svg.colLabels| == |topology| && Index(|topology|, r, s) < |svg.cells|
    ensures svg.rowLabels[r].cpu == topology[i].cpu && svg.colLabels[s].cpu == topology[j].cpu
    ensures var cell := svg.cells[Index(|topology|, r, s)];
            && cell.latency == (if i == j then 0.0 else Mean(m, i, j, rounds))
            && svg.rowLabels[r].x == v.dims.paddingLeft - 10 && svg.rowLabels[r].y == cell.y + 20
            && svg.colLabels[s].x == cell.x + 20 && svg.colLabels[s].y == 90
  {
    LabelsOfAxis(svg, v, r);
    LabelsOfAxis(svg, v, s);
    AxisIsPermutation(v.ids, c, topology, m, rounds);
    HeatmapShowsMeasurements(svg.cells, v, c, topology, m, rounds, r, s, i, j);
  }

  lemma {:induction false} InMap(f: nat -> Line, ks: seq<nat>, k: nat)
    requires forall p :: 0 <= p < |ks| && f(ks[p]) == f(k) ==> ks[p] == k
    ensures f(k) in Map(f, ks) <==> k in ks
  {
    if k in ks {
      var p :| 0 <= p < |ks| && ks[p] == k;
      assert Map(f, ks)[p] == f(k);
    }
  }

  /** Horizontal and vertical separators stand at the same indices: one at every socket change along the axis,
      in order, and nowhere else. SeparatorCount says how many that is. */
  lemma {:induction false} SeparatorsAreSocketChanges(hLines: seq<Line>, vLines: seq<Line>, v: View)
    requires DrawsLines(hLines, vLines, v)
    ensures |hLines| == |vLines| == |Boundaries(v.ids, v.sockets, |v.ids|)|
    ensures forall p :: 0 <= p < |hLines| ==> hLines[p].y1 - PADDING_TOP == vLines[p].x1 - v.dims.paddingLeft
    ensures forall p, q :: 0 <= p < q < |hLines| ==> hLines[p].y1 < hLines[q].y1
    ensures forall k: nat :: HLineAt(v)(k) in hLines <==> IsBoundary(v.ids, v.sockets, k)
  {
    var b := Boundaries(v.ids, v.sockets, |v.ids|);
    BoundariesAreAll(v.ids, v.sockets, |v.ids|, 0);
    forall k: nat ensures HLineAt(v)(k) in hLines <==> IsBoundary(v.ids, v.sockets, k) {
      BoundariesAreAll(v.ids, v.sockets, |v.ids|, k);
      InMap(HLineAt(v), b, k);
    }
  }

  /** A line along the heatmap above row k of n. */
  function LineAbove(d: Dims, n: nat, k: nat): Line {
    Line(d.paddingLeft, 100 + k * 40, d.paddingLeft + n * 40, 100 + k * 40)
  }

  /** A line from the heatmap's upper edge down, left of column k. */
  function LineLeftOf(d: Dims, k: nat): Line {
    Line(d.paddingLeft + k * 40, 100, d.paddingLeft + k * 40, d.height - 20)
  }

  lemma {:induction false} LinesAtBoundary(hLines: seq<Line>, vLines: seq<Line>, v: View, k: nat)
    requires DrawsLines(hLines, vLines, v)
    ensures LineAbove(v.dims, |v.ids|, k) in hLines <==> IsBoundary(v.ids, v.sockets, k)
    ensures LineLeftOf(v.dims, k) in vLines <==> IsBoundary(v.ids, v.sockets, k)
  {
    var b := Boundaries(v.ids, v.sockets, |v.ids|);
    BoundariesAreAll(v.ids, v.sockets, |v.ids|, k);
    InMap(HLineAt(v), b, k);
    InMap(VLineAt(v), b, k);
    assert HLineAt(v)(k) == LineAbove(v.dims, |v.ids|, k) && VLineAt(v)(k) == LineLeftOf(v.dims, k);
  }

  /** On the picture of a ranking: above row k, and left of column k, a line runs along the heatmap if and only if the
      CPU of that row or column and the one before it are on different sockets of the machine. */
  lemma {:induction false} SeparatorsOfRanking(hLines: seq<Line>, vLines: seq<Line>, v: View, c: seq<CoreRanking>,
      topology: seq<CoreInfo>, m: Measurer, rounds: nat, k: nat, i: nat, j: nat)
    requires rounds > 0 && DistinctCpus(topology) && Published(c, topology, m, rounds) && ShowsRankings(v, c)
    requires DrawsLines(hLines, vLines, v)
    requires 0 < k < |v.ids| && i < |topology| && j < |topology|
    requires topology[i].cpu == v.ids[k - 1] && topology[j].cpu == v.ids[k]
    ensures LineAbove(v.dims, |topology|, k) in hLines <==> topology[i].socket != topology[j].socket
    ensures LineLeftOf(v.dims, k) in vLines <==> topology[i].socket != topology[j].socket
  {
    LinesAtBoundary(hLines, vLines, v, k);
    BoundaryIsSocketChange(v.ids, c, topology, m, rounds, k, i, j);
  }

  // ---------------------------------------------------------------- everything fits

  /** The canvas has room for what is put on it, the heatmap starting at paddingLeft. */
  predicate Holds(d: Dims, n: nat, nameLength: nat, statsLength: nat, mode: Mode, vms: nat) {
    && d.paddingLeft >= BASE_PADDING_LEFT
    && TextWidth(nameLength, statsLength) <= d.width
    && d.paddingLeft + n * CELL_SIZE + 20 <= d.width
    && PADDING_TOP + n * CELL_SIZE + 20 <= d.height
    && (mode.ModeAffinity? ==>
          d.paddingLeft + n * CELL_SIZE + TABLE_GAP + TABLE_WIDTH + 20 <= d.width && TableBottom(vms) <= d.height)
  }

  ghost predicate NoneNarrower(n: nat, nameLength: nat, statsLength: nat, mode: Mode, vms: nat) {
    forall d :: Holds(d, n, nameLength, statsLength, mode, vms) ==>
                  Canvas(n, nameLength, statsLength, mode, vms).width <= d.width
  }

  /** The canvas holds everything, the heatmap in the middle of what the table leaves. No lower one would do, and
      no narrower one either, except that room for the table is added even where the text already gives it: in
      affinity mode the width is the least exactly when the text is no wider than the heatmap. */
  lemma {:induction false} CanvasIsLeast(n: nat, nameLength: nat, statsLength: nat, mode: Mode, vms: nat)
    ensures var d := Canvas(n, nameLength, statsLength, mode, vms);
            && Holds(d, n, nameLength, statsLength, mode, vms)
            && (forall e :: Holds(e, n, nameLength, statsLength, mode, vms) ==> d.height <= e.height)
            && var right := d.width - (if mode.ModeAffinity? then TABLE_GAP + TABLE_WIDTH else 0);
               0 <= (right - (d.paddingLeft + n * CELL_SIZE + 20)) - (d.paddingLeft - BASE_PADDING_LEFT) <= 1
    ensures NoneNarrower(n, nameLength, statsLength, mode, vms) <==>
              mode == ModeDefault || TextWidth(nameLength, statsLength) <= BASE_PADDING_LEFT + n * CELL_SIZE + 20
  {
    var text := TextWidth(nameLength, statsLength);
    var beside := BASE_PADDING_LEFT + n * CELL_SIZE + TABLE_GAP + TABLE_WIDTH + 20;
    var d := Canvas(n, nameLength, statsLength, mode, vms);
    if mode == ModeAffinity && text > BASE_PADDING_LEFT + n * CELL_SIZE + 20 {
      assert Holds(Dims(Max(text, beside), d.height, BASE_PADDING_LEFT), n, nameLength, statsLength, mode, vms);
    }
  }

  lemma {:induction false} CellsInside(v: View, rows: nat)
    requires rows <= |v.ids|
    ensures forall k :: 0 <= k < |Cells(v, rows)| ==>
              && v.dims.paddingLeft <= Cells(v, rows)[k].x
              && Cells(v, rows)[k].x + CELL_SIZE <= v.dims.paddingLeft + |v.ids| * CELL_SIZE
              && PADDING_TOP <= Cells(v, rows)[k].y
              && Cells(v, rows)[k].y + CELL_SIZE <= PADDING_TOP + rows * CELL_SIZE
    decreases rows
  {
    if rows == 0 {
    } else {
      CellsInside(v, rows - 1);
    }
  }

  predicate CellFits(c: Cell, d: Dims) {
    0 <= c.x && c.x + CELL_SIZE <= d.width - 20 && 0 <= c.y && c.y + CELL_SIZE <= d.height - 20
  }

  predicate LineFits(l: Line, d: Dims) {
    0 <= l.x1 <= l.x2 <= d.width - 20 && 0 <= l.y1 <= l.y2 <= d.height - 20
  }

  /** The table's frame, with its message when it is empty, and the boxes of its rows. */
  predicate TableFits(svg: Svg, d: Dims) {
    && svg.affinityX + TABLE_WIDTH <= d.width - 20
    && svg.affinityY + 10 + ROW_HEIGHT <= d.height
    && forall i :: 0 <= i < |svg.affinityRows| ==>
         svg.affinityY + svg.affinityRows[i].rectY + ROW_HEIGHT <= d.height
  }

  /** Where the label of a row or column is anchored. */
  predicate LabelFits(l: CpuLabel, d: Dims) {
    0 <= l.x <= d.width - 20 && 0 <= l.y <= d.height - 20
  }

  /** The drawing lies within the canvas, for any number of CPUs and VMs: title and statistics fit its width, cells
      and separators keep 20 pixels from its right and bottom edges, as do the anchors of the labels, and so does
      the frame of the affinity table from the right, whether it lists VMs or says that there are none. How wide
      labels and a VM's list of CPUs are is not looked at, neither here nor in the program. */
  lemma {:induction false} EverythingFits(svg: Svg, v: View, nameLength: nat, statsLength: nat, mode: Mode,
      affinity: map<int, seq<int>>)
    requires Draws(svg, v) && v.dims == Canvas(|v.ids|, nameLength, statsLength, mode, |affinity|)
    requires ShowsAffinity(svg, v, mode, affinity)
    ensures nameLength * 12 + 40 <= svg.dims.width && statsLength * 8 + 40 <= svg.dims.width
    ensures forall k :: 0 <= k < |svg.cells| ==> CellFits(svg.cells[k], svg.dims)
    ensures forall k :: 0 <= k < |v.ids| ==>
              LabelFits(svg.rowLabels[k], svg.dims) && LabelFits(svg.colLabels[k], svg.dims)
    ensures forall p :: 0 <= p < |svg.hLines| ==> LineFits(svg.hLines[p], svg.dims)
    ensures forall p :: 0 <= p < |svg.vLines| ==> LineFits(svg.vLines[p], svg.dims)
    ensures mode == ModeAffinity ==> TableFits(svg, svg.dims)
  {
    CellsInside(v, |v.ids|);
    var b := Boundaries(v.ids, v.sockets, |v.ids|);
    BoundariesAreAll(v.ids, v.sockets, |v.ids|, 0);
    assert forall p :: 0 <= p < |b| ==> b[p] < |v.ids|;
    if mode == ModeAffinity {
      assert TableBottom(|affinity|) <= svg.dims.height;
    }
  }

  lemma {:induction false} WhereLinesEnd(hLines: seq<Line>, vLines: seq<Line>, v: View, nameLength: nat,
      statsLength: nat, mode: Mode, vms: nat)
    requires DrawsLines(hLines, vLines, v) && v.dims == Canvas(|v.ids|, nameLength, statsLength, mode, vms)
    ensures (forall p :: 0 <= p < |vLines| ==> vLines[p].y2 == PADDING_TOP + |v.ids| * CELL_SIZE) <==>
              vLines == [] || mode == ModeDefault || Max(vms, 1) + 2 <= |v.ids|
    ensures forall p :: 0 <= p < |hLines| ==> hLines[p].x2 == v.dims.paddingLeft + |v.ids| * CELL_SIZE
  {
    assert vLines != [] ==> vLines[0].y2 == v.dims.height - 20;
  }

  /** Horizontal separators end at the heatmap's edge. Vertical ones end at its bottom edge except when the
      affinity table makes the canvas taller: exactly when the machine has more than one socket and there are at
      least n - 1 VMs to list (or, with two CPUs, none), they run on below it. */
  lemma {:induction false} VerticalLinesEndAtHeatmap(hLines: seq<Line>, vLines: seq<Line>, v: View,
      c: seq<CoreRanking>, topology: seq<CoreInfo>, m: Measurer, rounds: nat,
      nameLength: nat, statsLength: nat, mode: Mode, vms: nat)
    requires rounds > 0 && DistinctCpus(topology) && Published(c, topology, m, rounds) && ShowsRankings(v, c)
    requires DrawsLines(hLines, vLines, v) && v.dims == Canvas(|v.ids|, nameLength, statsLength, mode, vms)
    ensures (forall p :: 0 <= p < |vLines| ==> vLines[p].y2 == PADDING_TOP + |topology| * CELL_SIZE) <==>
              |TopologySockets(topology)| <= 1 || mode == ModeDefault || Max(vms, 1) + 2 <= |topology|
    ensures forall p :: 0 <= p < |hLines| ==> hLines[p].x2 == v.dims.paddingLeft + |topology| * CELL_SIZE
  {
    AxisIsPermutation(v.ids, c, topology, m, rounds);
    WhereLinesEnd(hLines, vLines, v, nameLength, statsLength, mode, vms);
    if topology == [] {
      assert TopologySockets(topology) == {};
    } else {
      OneBoundaryPerTopologySocket(v.ids, c, topology, m, rounds);
      assert |vLines| == |Boundaries(v.ids, v.sockets, |v.ids|)|;
    }
  }

  function AnyTime(r: nat, i: nat, j: nat): Option<real> { Some(1.0) }

  // the statistics line with its four latencies at 1.00
  const STATS_LENGTH: nat := 61

  const TWO_SOCKETS := [CoreInfo(0, 0, 0), CoreInfo(1, 1, 0)]
  const TWO_SOCKETS_RANKED := [CoreRanking(0, [Neighbor(1, 1, 0, 1.0)]), CoreRanking(1, [Neighbor(0, 0, 0, 1.0)])]
  const TWO_SOCKETS_VIEW :=
    View([0, 1], SocketTable(AllNeighbors(TWO_SOCKETS_RANKED)), LatencyTable(TWO_SOCKETS_RANKED), 1.0,
         Canvas(2, 0, STATS_LENGTH, ModeAffinity, 1))

  lemma {:induction false} TwoSocketsAreRanked()
    ensures Published(TWO_SOCKETS_RANKED, TWO_SOCKETS, AnyTime, 1)
  {
    assert SumRounds(AnyTime, 0, 1, 1) == 1.0 && SumRounds(AnyTime, 1, 0, 1) == 1.0;
    assert NeighborsOf(TWO_SOCKETS, AnyTime, 1, 0) == TWO_SOCKETS_RANKED[0].ranking;
    assert NeighborsOf(TWO_SOCKETS, AnyTime, 1, 1) == TWO_SOCKETS_RANKED[1].ranking;
  }

  lemma {:induction false} TwoSocketsHaveOneBoundary()
    ensures AllNeighbors(TWO_SOCKETS_RANKED) == [Neighbor(1, 1, 0, 1.0), Neighbor(0, 0, 0, 1.0)]
    ensures SocketTable(AllNeighbors(TWO_SOCKETS_RANKED)) == map[1 := 1, 0 := 0]
    ensures Boundaries([0, 1], map[1 := 1, 0 := 0], 2) == [1]
  {
    var c := TWO_SOCKETS_RANKED;
    assert c[..1][..0] == [] && AllNeighbors(c[..1]) == c[0].ranking;
    var ns := [Neighbor(1, 1, 0, 1.0), Neighbor(0, 0, 0, 1.0)];
    assert AllNeighbors(c) == ns;
    assert ns[..1] == [ns[0]] && ns[..1][..0] == [];
    assert SocketTable(ns[..1]) == map[1 := 1];
  }

  lemma {:induction false} TwoSocketsView()
    ensures ShowsRankings(TWO_SOCKETS_VIEW, TWO_SOCKETS_RANKED) && DistinctCpus(TWO_SOCKETS)
  {
    TwoSocketsHaveOneBoundary();
    var ids, order := [0, 1], SocketOrder(map[1 := 1, 0 := 0]);
    assert Sources(TWO_SOCKETS_RANKED) == ids && Map(TopologyCpu, TWO_SOCKETS) == ids;
    assert order(0, 1);
    assert SortOf(ids, ids, order);
  }

  lemma {:induction false} TwoSocketsLines()
    ensures DrawsLines([Line(254, 140, 334, 140)], [Line(294, 100, 294, 190)], TWO_SOCKETS_VIEW)
  {
    TwoSocketsHaveOneBoundary();
    var v := TWO_SOCKETS_VIEW;
    assert Map(HLineAt(v), [1 as nat]) == [HLineAt(v)(1)] && Map(VLineAt(v), [1 as nat]) == [VLineAt(v)(1)];
  }

  lemma {:induction false} TwoSocketsCanvas(name: nat)
    requires name <= 40
    ensures Canvas(2, name, STATS_LENGTH, ModeAffinity, 1) == Dims(868, 210, 254)
  {}

  /** Two CPUs on two sockets and one VM: the separator between them runs ten pixels past the heatmap, for any CPU
      name that the statistics line outruns. */
  lemma {:induction false} SeparatorRunsOver()
    ensures Published(TWO_SOCKETS_RANKED, TWO_SOCKETS, AnyTime, 1) && DistinctCpus(TWO_SOCKETS)
    ensures ShowsRankings(TWO_SOCKETS_VIEW, TWO_SOCKETS_RANKED)
    ensures DrawsLines([Line(254, 140, 334, 140)], [Line(294, 100, 294, 190)], TWO_SOCKETS_VIEW)
    ensures forall name: nat :: name <= 40 ==> Canvas(2, name, STATS_LENGTH, ModeAffinity, 1) == TWO_SOCKETS_VIEW.dims
    ensures TWO_SOCKETS_VIEW.dims == Dims(868, 210, 254)
    ensures 190 == PADDING_TOP + 2 * CELL_SIZE + 10
  {
    TwoSocketsAreRanked();
    TwoSocketsView();
    TwoSocketsLines();
    forall name: nat | name <= 40
      ensures Canvas(2, name, STATS_LENGTH, ModeAffinity, 1) == TWO_SOCKETS_VIEW.dims == Dims(868, 210, 254)
    {
      TwoSocketsCanvas(name);
      TwoSocketsCanvas(0);
    }
  }

  lemma {:induction false} MeanIsReported(c: seq<CoreRanking>, topology: seq<CoreInfo>, m: Measurer, rounds: nat,
      i: nat, j: nat)
    requires rounds > 0 && Published(c, topology, m, rounds)
    requires i < |topology| && j < |topology| && i != j
    ensures Mean(m, i, j, rounds) in Latencies(c)
  {
    var n := NeighborAt(topology, m, rounds, i, j);
    InPublishedRow(c, topology, m, rounds, i, n);
    InAllNeighbors(c, n);
    var k :| 0 <= k < |AllNeighbors(c)| && AllNeighbors(c)[k] == n;
    assert Latencies(c)[k] == Mean(m, i, j, rounds);
  }

  lemma Fraction(x: real, max: real)
    requires 0.0 <= x <= max
    ensures 0.0 <= Ratio(x, max) <= 1.0
  {
    if max > 0.0 {
      Quotient(x, max, 0.0, 1.0);
    }
  }

  /** Colours are picked by a fraction of the greatest latency. */
  lemma {:induction false} RatiosAreFractions(c: seq<CoreRanking>, topology: seq<CoreInfo>, m: Measurer, rounds: nat,
      stats: TopologyStats, i: nat, j: nat)
    requires rounds > 0 && DistinctCpus(topology) && Published(c, topology, m, rounds)
    requires stats.max == RunningMax(Latencies(c))
    requires forall x :: x in Latencies(c) ==> x >= 0.0
    requires i < |topology| && j < |topology| && i != j
    ensures 0.0 <= Ratio(LatencyAt(LatencyTable(c), topology[i].cpu, topology[j].cpu), stats.max) <= 1.0
  {
    LatenciesAreRecovered(c, topology, m, rounds, i, j);
    MeanIsReported(c, topology, m, rounds, i, j);
    RunningMaxBounds(Latencies(c));
    Fraction(Mean(m, i, j, rounds), stats.max);
  }
}
