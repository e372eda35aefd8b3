// The benchmark helpers of internal/converter/converter_bench_test.go:
// processSequential samples every cell of the grid row by row, and
// processParallel splits the rows among numWorkers workers, worker w taking
// rows [w * rowsPerWorker, (w + 1) * rowsPerWorker) and the last worker every
// row up to numRows. The goroutines are run one after another here, in worker
// order; what each samples is recorded with the brightness it computed.

module Partition {
  import opened Pixels
  import opened Grid
  import opened Sampler
  import opened Rows
  import opened Render

  /** One calculateBrightness call of the benchmark loops: the cell and the brightness it returned. */
  datatype Sample = Sample(row: nat, col: nat, brightness: real)

  function CellSample(img: Image, g: Layout, i: nat, j: nat): Sample
    requires g.Valid()
  {
    Sample(i, j, MeanLuma(CellRegion(img, g, i, j)))
  }

  /** The samples of row i, left to right. */
  function RowSamples(img: Image, g: Layout, i: nat): (s: seq<Sample>)
    requires g.Valid()
    ensures |s| == g.numCols
  {
    seq(g.numCols, j requires 0 <= j < g.numCols => CellSample(img, g, i, j))
  }

  /** The rows lo .. hi - 1, top to bottom. */
  function Band(img: Image, g: Layout, lo: nat, hi: nat): (rows: seq<seq<Sample>>)
    requires g.Valid() && lo <= hi
    ensures |rows| == hi - lo
    ensures forall k | 0 <= k < hi - lo :: rows[k] == RowSamples(img, g, lo + k)
    ensures AllOfLength(rows, g.numCols)
  {
    seq(hi - lo, k requires 0 <= k < hi - lo => RowSamples(img, g, lo + k))
  }

  /** Everything sampled for rows lo .. hi - 1. */
  function BandSamples(img: Image, g: Layout, lo: nat, hi: nat): seq<Sample>
    requires g.Valid() && lo <= hi
  {
    Concat(Band(img, g, lo, hi))
  }

  /** Adjacent bands sample one after the other. */
  lemma BandsJoin(img: Image, g: Layout, a: nat, b: nat, c: nat)
    requires g.Valid() && a <= b <= c
    ensures BandSamples(img, g, a, b) + BandSamples(img, g, b, c) == BandSamples(img, g, a, c)
  {
    assert Band(img, g, a, b) + Band(img, g, b, c) == Band(img, g, a, c);
    ConcatAppend(Band(img, g, a, b), Band(img, g, b, c));
  }

  /** The column loop of row i: one calculateBrightness call per cell. */
  method SampleRow(img: Image, g: Layout, i: nat, s0: seq<Sample>) returns (s: seq<Sample>)
    requires img.Valid() && g.Valid()
    ensures s == s0 + RowSamples(img, g, i)
  {
    ghost var row := RowSamples(img, g, i);
    s := s0;
    var j := 0;
    while j < g.numCols
      invariant 0 <= j <= g.numCols
      invariant s == s0 + row[..j]
    {
      var brightness := CalculateBrightness(img, CellX(g, j), CellY(g, i), CellW(g), CellH(g));
      assert row[..j + 1] == row[..j] + [Sample(i, j, brightness)];
      s := s + [Sample(i, j, brightness)];
      j := j + 1;
    }
    assert row[..j] == row;
  }

  /** The row loop over rows lo .. hi - 1. */
  method SampleRows(img: Image, g: Layout, lo: nat, hi: nat) returns (s: seq<Sample>)
    requires img.Valid() && g.Valid() && lo <= hi
    ensures s == BandSamples(img, g, lo, hi)
  {
    ghost var rows := Band(img, g, lo, hi);
    s := [];
    var k := 0;
    while k < hi - lo
      invariant 0 <= k <= hi - lo
      invariant s == Concat(rows[..k])
    {
      ConcatPush(rows, k);
      s := SampleRow(img, g, lo + k, s);
      k := k + 1;
    }
    assert rows[..k] == rows;
  }

  /** processSequential: every cell of the grid, row by row. */
  method ProcessSequential(img: Image, numCols: int) returns (samples: seq<Sample>)
    requires Usable(img) && numCols >= 1
    ensures samples == BandSamples(img, MakeLayout(img.width, img.height, numCols), 0,
                                   MakeLayout(img.width, img.height, numCols).numRows)
  {
    var g := MakeLayout(img.width, img.height, numCols);
    samples := SampleRows(img, g, 0, g.numRows);
  }

  /** The sequential run samples cell (p / NumCols, p % NumCols) as its p-th call: every cell of the grid
      exactly once, in row-major order. */
  lemma SequentialOrder(img: Image, g: Layout, p: nat)
    requires g.Valid() && p < g.numRows * g.numCols
    ensures |BandSamples(img, g, 0, g.numRows)| == g.numRows * g.numCols
    ensures BandSamples(img, g, 0, g.numRows)[p] == CellSample(img, g, p / g.numCols, p % g.numCols)
    ensures BandSamples(img, g, 0, g.numRows)[p].row * g.numCols + BandSamples(img, g, 0, g.numRows)[p].col == p
  {
    var n := g.numCols;
    var i, j := p / n, p % n;
    assert p == i * n + j;
    RowBelow(p, n, g.numRows);
    ConcatAt(Band(img, g, 0, g.numRows), n, i, j);
  }

  /** An index below rows * n has its row below rows. */
  lemma RowBelow(p: nat, n: nat, rows: nat)
    requires n > 0 && p < rows * n
    ensures p / n < rows
  {
    assert (p / n) * n <= p;
    if p / n >= rows {
      MulMono(rows, p / n, n);
      assert false;
    }
  }

  lemma MulMono(a: nat, b: nat, n: nat)
    requires a <= b
    ensures a * n <= b * n
  {
    assert b * n - a * n == (b - a) * n;
  }

  /** The rows of worker w: `startRow := w * rowsPerWorker`, `endRow := startRow + rowsPerWorker`,
      and the last worker ends at numRows. */
  function WorkerRows(numRows: nat, numWorkers: nat, w: nat): (r: (nat, nat))
    requires numWorkers >= 1
  {
    var rowsPerWorker := numRows / numWorkers;
    var startRow := w * rowsPerWorker;
    (startRow, if w == numWorkers - 1 then numRows else startRow + rowsPerWorker)
  }

  /** The worker that takes row r. */
  function Owner(numRows: nat, numWorkers: nat, r: nat): nat
    requires numWorkers >= 1
  {
    var rowsPerWorker := numRows / numWorkers;
    if rowsPerWorker == 0 || r / rowsPerWorker >= numWorkers - 1 then numWorkers - 1 else r / rowsPerWorker
  }

  /** The workers' ranges tile [0, numRows): the first starts at 0, each ends where the next starts,
      the last ends at numRows, and none is reversed. */
  lemma RangesTile(numRows: nat, numWorkers: nat, w: nat)
    requires numWorkers >= 1 && w < numWorkers
    ensures WorkerRows(numRows, numWorkers, 0).0 == 0
    ensures WorkerRows(numRows, numWorkers, numWorkers - 1).1 == numRows
    ensures WorkerRows(numRows, numWorkers, w).0 <= WorkerRows(numRows, numWorkers, w).1 <= numRows
    ensures w + 1 < numWorkers ==> WorkerRows(numRows, numWorkers, w).1 == WorkerRows(numRows, numWorkers, w + 1).0
  {
    var rpw := numRows / numWorkers;
    MulMono(w + 1, numWorkers, rpw);
    assert numWorkers * rpw <= numRows;
    assert (w + 1) * rpw == w * rpw + rpw;
  }

  /** Each row lies in the range of exactly one worker, also when there are more workers than rows. */
  lemma RangesPartition(numRows: nat, numWorkers: nat, r: nat, w: nat)
    requires numWorkers >= 1 && r < numRows && w < numWorkers
    ensures WorkerRows(numRows, numWorkers, w).0 <= r < WorkerRows(numRows, numWorkers, w).1
        <==> w == Owner(numRows, numWorkers, r)
  {
    var rpw := numRows / numWorkers;
    if rpw > 0 {
      if w < numWorkers - 1 {
        assert WorkerRows(numRows, numWorkers, w).1 == (w + 1) * rpw;
        DivBand(r, rpw, w);
      } else {
        DivAtLeast(r, rpw, w);
      }
    }
  }

  /** w * d <= r < (w + 1) * d exactly when r / d == w. */
  lemma DivBand(r: nat, d: nat, w: nat)
    requires d > 0
    ensures w * d <= r < (w + 1) * d <==> r / d == w
  {
    var q := r / d;
    assert q * d <= r < (q + 1) * d;
    if w * d <= r < (w + 1) * d {
      if q < w {
        MulMono(q + 1, w, d);
        assert false;
      }
      if w < q {
        MulMono(w + 1, q, d);
        assert false;
      }
    }
  }

  /** w * d <= r exactly when r / d >= w. */
  lemma DivAtLeast(r: nat, d: nat, w: nat)
    requires d > 0
    ensures w * d <= r <==> r / d >= w
  {
    var q := r / d;
    assert q * d <= r < (q + 1) * d;
    if w * d <= r && q < w {
      MulMono(q + 1, w, d);
      assert false;
    }
    if q >= w {
      MulMono(w, q, d);
    }
  }

  /** The partition loop of processParallel: one (startRow, endRow) pair per worker. */
  method RowRanges(numRows: nat, numWorkers: nat) returns (ranges: seq<(nat, nat)>)
    requires numWorkers >= 1
    ensures |ranges| == numWorkers
    ensures forall w | 0 <= w < numWorkers :: ranges[w] == WorkerRows(numRows, numWorkers, w)
  {
    var rowsPerWorker := numRows / numWorkers;
    ranges := [];
    var w := 0;
    while w < numWorkers
      invariant 0 <= w <= numWorkers && |ranges| == w
      invariant forall v | 0 <= v < w :: ranges[v] == WorkerRows(numRows, numWorkers, v)
    {
      var startRow := w * rowsPerWorker;
      var endRow := startRow + rowsPerWorker;
      if w == numWorkers - 1 {
        endRow := numRows;
      }
      ranges := ranges + [(startRow, endRow)];
      w := w + 1;
    }
  }

  /** What worker w samples: the rows of its range. */
  function WorkerBand(img: Image, g: Layout, numWorkers: nat, w: nat): seq<Sample>
    requires g.Valid() && 1 <= numWorkers && w < numWorkers
  {
    RangesTile(g.numRows, numWorkers, w);
    BandSamples(img, g, WorkerRows(g.numRows, numWorkers, w).0, WorkerRows(g.numRows, numWorkers, w).1)
  }

  /** What every worker samples, in worker order. */
  function WorkerBands(img: Image, g: Layout, numWorkers: nat): (bands: seq<seq<Sample>>)
    requires g.Valid() && numWorkers >= 1
    ensures |bands| == numWorkers
  {
    seq(numWorkers, w requires 0 <= w < numWorkers => WorkerBand(img, g, numWorkers, w))
  }

  /** The first w workers together sample the rows up to where worker w - 1 stops. */
  lemma {:induction false} WorkersPrefix(img: Image, g: Layout, numWorkers: nat, w: nat)
    requires g.Valid() && 1 <= w <= numWorkers
    ensures Concat(WorkerBands(img, g, numWorkers)[..w])
         == BandSamples(img, g, 0, WorkerRows(g.numRows, numWorkers, w - 1).1)
  {
    var bands := WorkerBands(img, g, numWorkers);
    RangesTile(g.numRows, numWorkers, w - 1);
    ConcatPush(bands, w - 1);
    if w == 1 {
      assert bands[..0] == [];
    } else {
      WorkersPrefix(img, g, numWorkers, w - 1);
      RangesTile(g.numRows, numWorkers, w - 2);
      BandsJoin(img, g, 0, WorkerRows(g.numRows, numWorkers, w - 2).1, WorkerRows(g.numRows, numWorkers, w - 1).1);
    }
  }

  /** Run one after the other, the workers sample exactly what processSequential does, in the same order. */
  lemma WorkersCoverGrid(img: Image, g: Layout, numWorkers: nat)
    requires g.Valid() && numWorkers >= 1
    ensures Concat(WorkerBands(img, g, numWorkers)) == BandSamples(img, g, 0, g.numRows)
  {
    var bands := WorkerBands(img, g, numWorkers);
    WorkersPrefix(img, g, numWorkers, numWorkers);
    assert bands[..numWorkers] == bands;
    RangesTile(g.numRows, numWorkers, numWorkers - 1);
  }

  /** processParallel with its goroutines run in worker order: worker w samples the rows of its range,
      and together they sample what processSequential does. */
  method ProcessParallel(img: Image, numCols: int, numWorkers: nat) returns (perWorker: seq<seq<Sample>>)
    requires Usable(img) && numCols >= 1 && numWorkers >= 1
    ensures perWorker == WorkerBands(img, MakeLayout(img.width, img.height, numCols), numWorkers)
    ensures var g := MakeLayout(img.width, img.height, numCols);
      Concat(perWorker) == BandSamples(img, g, 0, g.numRows)
  {
    var g := MakeLayout(img.width, img.height, numCols);
    ghost var bands := WorkerBands(img, g, numWorkers);
    var ranges := RowRanges(g.numRows, numWorkers);
    perWorker := [];
    var w := 0;
    while w < numWorkers
      invariant 0 <= w <= numWorkers
      invariant perWorker == bands[..w]
    {
      var (startRow, endRow) := ranges[w];
      RangesTile(g.numRows, numWorkers, w);
      var s := SampleRows(img, g, startRow, endRow);
      assert bands[..w + 1] == bands[..w] + [s];
      perWorker := perWorker + [s];
      w := w + 1;
    }
    assert bands[..w] == bands;
    WorkersCoverGrid(img, g, numWorkers);
  }
}
