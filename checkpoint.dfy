/**
 * Resuming from the last saved state (load_final_state): nine matrices are
 * read back, their shapes are checked against what the state needs, and the
 * state is taken from them whether or not a shape was wrong.
 */
module Checkpoint {
  import opened Numerics

  /** A matrix as read from a text file: rows-by-cols cells. */
  datatype Table = Table(rows: nat, cols: nat, cells: seq<seq<real>>) {
    predicate Valid() {
      |cells| == rows && forall i :: 0 <= i < rows ==> |cells[i]| == cols
    }

    predicate Is(r: int, c: int) {
      rows == r && cols == c
    }
  }

  /** The files lastqtiles, lastmtiles, lastthetas, lastqhyper, lastmhyper, lastqeffct, lastmeffct, lastqseeds and lastmseeds. */
  datatype Files = Files(qtiles: Table, mtiles: Table, thetas: Table, qhyper: Table, mhyper: Table,
                         qeffct: Table, meffct: Table, qseeds: Table, mseeds: Table)

  /** Every cell the loader reads exists. */
  predicate Readable(f: Files) {
    && f.qtiles.Valid() && f.qtiles.rows >= 1 && f.qtiles.cols >= 1
    && f.mtiles.Valid() && f.mtiles.rows >= 1 && f.mtiles.cols >= 1
    && f.thetas.Valid() && f.thetas.cols >= 1
    && f.qhyper.Valid() && f.qhyper.rows >= 1 && f.qhyper.cols >= 1
    && f.mhyper.Valid() && f.mhyper.rows >= 1 && f.mhyper.cols >= 2
    && f.qeffct.Valid() && f.qeffct.cols >= 1
    && f.meffct.Valid() && f.meffct.cols >= 1
    && f.qseeds.Valid() && f.qseeds.cols >= 2
    && f.mseeds.Valid() && f.mseeds.cols >= 2
  }

  /** Conversion of a double to an int: the fraction is dropped, rounding toward zero. */
  function TruncToInt(x: real): (n: int)
    ensures x >= 0.0 ==> n as real <= x < n as real + 1.0
    ensures x < 0.0 ==> n as real - 1.0 < x <= n as real
  {
    if x >= 0.0 then x.Floor else -((-x).Floor)
  }

  function Column(t: Table, c: nat): (col: seq<real>)
    requires t.Valid() && c < t.cols
    ensures |col| == t.rows && forall i :: 0 <= i < t.rows ==> col[i] == t.cells[i][c]
  {
    seq(t.rows, i requires 0 <= i < t.rows => t.cells[i][c])
  }

  /** The rows of a two-column seeds matrix as points. */
  function Points(t: Table): (pts: seq<Point>)
    requires t.Valid() && t.cols >= 2
    ensures |pts| == t.rows
    ensures forall i :: 0 <= i < t.rows ==> pts[i] == Point(t.cells[i][0], t.cells[i][1])
  {
    seq(t.rows, i requires 0 <= i < t.rows => Point(t.cells[i][0], t.cells[i][1]))
  }

  /** The values the loader assigns to the state. */
  datatype Loaded = Loaded(
    qtiles: int, mtiles: int, sigma2: seq<real>, qrateS2: real, mrateMu: real, mrateS2: real,
    qEffcts: seq<real>, mEffcts: seq<real>, qSeeds: seq<Point>, mSeeds: seq<Point>,
    qColors: seq<int>, mColors: seq<int>)

  /** What the loader takes from the files, with both colourings recomputed from the seeds. */
  function Load(f: Files, closestToDeme: seq<Point> -> seq<int>): (l: Loaded)
    requires Readable(f)
    ensures |l.qEffcts| == f.qeffct.rows && |l.mEffcts| == f.meffct.rows && |l.sigma2| == f.thetas.rows
    ensures |l.qSeeds| == f.qseeds.rows && |l.mSeeds| == f.mseeds.rows
    ensures l.qColors == closestToDeme(l.qSeeds) && l.mColors == closestToDeme(l.mSeeds)
  {
    Loaded(
      TruncToInt(f.qtiles.cells[0][0]),
      TruncToInt(f.mtiles.cells[0][0]),
      Column(f.thetas, 0),
      f.qhyper.cells[0][0],
      f.mhyper.cells[0][0],
      f.mhyper.cells[0][1],
      Column(f.qeffct, 0),
      Column(f.meffct, 0),
      Points(f.qseeds),
      Points(f.mseeds),
      closestToDeme(Points(f.qseeds)),
      closestToDeme(Points(f.mseeds)))
  }

  /** The error flag the loader computes: some matrix does not have the shape the state needs. */
  predicate ShapeError(f: Files, p: nat)
    requires Readable(f)
  {
    var qtiles := TruncToInt(f.qtiles.cells[0][0]);
    var mtiles := TruncToInt(f.mtiles.cells[0][0]);
    || !f.qtiles.Is(1, 1)
    || !f.mtiles.Is(1, 1)
    || !f.thetas.Is(p, 1)
    || !f.qhyper.Is(1, 1)
    || !f.mhyper.Is(1, 2)
    || !f.qeffct.Is(qtiles, 1)
    || !f.meffct.Is(mtiles, 1)
    || !f.qseeds.Is(qtiles, 2)
    || !f.mseeds.Is(mtiles, 2)
  }

  /** The loaded tessellations agree with their tile counts, and there is one sigma2 per locus. */
  predicate Consistent(l: Loaded, p: nat) {
    && |l.qSeeds| == |l.qEffcts| == l.qtiles
    && |l.mSeeds| == |l.mEffcts| == l.mtiles
    && |l.sigma2| == p
  }

  /** Without a shape error the loaded state is consistent. */
  lemma CleanCheckpointIsConsistent(f: Files, closestToDeme: seq<Point> -> seq<int>, p: nat)
    requires Readable(f) && !ShapeError(f, p)
    ensures Consistent(Load(f, closestToDeme), p)
  {
  }

  /** An inconsistent loaded state always comes with the error flag set. */
  lemma InconsistentLoadIsFlagged(f: Files, closestToDeme: seq<Point> -> seq<int>, p: nat)
    requires Readable(f) && !Consistent(Load(f, closestToDeme), p)
    ensures ShapeError(f, p)
  {
    if !ShapeError(f, p) {
      CleanCheckpointIsConsistent(f, closestToDeme, p);
    }
  }

  /**
   * The flag has no effect: three tiles recorded but only two effects saved
   * still loads, giving a diversity tessellation whose tile count and effect
   * count differ.
   */
  lemma ShapeErrorIsIgnored(closestToDeme: seq<Point> -> seq<int>)
    ensures var one := Table(1, 1, [[1.0]]);
            var three := Table(1, 1, [[3.0]]);
            var f := Files(three, one, Table(1, 1, [[1.0]]), one, Table(1, 2, [[0.0, 1.0]]),
                           Table(2, 1, [[0.0], [0.0]]), Table(1, 1, [[0.0]]),
                           Table(3, 2, [[0.0, 0.0], [1.0, 1.0], [2.0, 2.0]]), Table(1, 2, [[0.0, 0.0]]));
            Readable(f) && ShapeError(f, 1) &&
            Load(f, closestToDeme).qtiles == 3 && |Load(f, closestToDeme).qEffcts| == 2
  {
    var three := Table(1, 1, [[3.0]]);
    assert TruncToInt(three.cells[0][0]) == 3;
  }
}
