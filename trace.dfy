/**
 * The MCMC trace that save_iteration fills: fixed-size per-iteration rows,
 * and flat lists that receive one entry per tile at every saved iteration,
 * so that the k-th block of a flat list, delimited by the recorded tile
 * counts, is the k-th saved tessellation. Also the posterior-mean
 * dissimilarity term added at every saved iteration.
 */
module Trace {
  import opened Numerics

  /** The sum of the recorded tile counts. */
  function Sum(s: seq<int>): int {
    if s == [] then 0 else Sum(s[..|s| - 1]) + s[|s| - 1]
  }

  /** The flat list holds exactly one entry per tile of each of the first saved iterations. */
  predicate Aligned(tiles: seq<int>, flat: seq<real>, saved: nat)
    requires saved <= |tiles|
  {
    |flat| == Sum(tiles[..saved])
  }

  /** 10^effect for each tile, as mcmcqRates receives them. */
  function Rates(effcts: seq<real>, pow10: real -> real): (r: seq<real>)
    ensures |r| == |effcts|
  {
    seq(|effcts|, t requires 0 <= t < |effcts| => pow10(effcts[t]))
  }

  /** 10^(effect + mrateMu) for each tile, as mcmcmRates receives them. */
  function ShiftedRates(effcts: seq<real>, mu: real, pow10: real -> real): (r: seq<real>)
    ensures |r| == |effcts|
  {
    seq(|effcts|, t requires 0 <= t < |effcts| => pow10(effcts[t] + mu))
  }

  /** The first coordinates of the seeds. */
  function Xs(seeds: seq<Point>): (r: seq<real>)
    ensures |r| == |seeds|
  {
    seq(|seeds|, t requires 0 <= t < |seeds| => seeds[t].x)
  }

  /** The second coordinates of the seeds. */
  function Ys(seeds: seq<Point>): (r: seq<real>)
    ensures |r| == |seeds|
  {
    seq(|seeds|, t requires 0 <= t < |seeds| => seeds[t].y)
  }

  /** The loop that pushes 10^effect for each of the first n tiles onto a flat list. */
  method AppendRates(list: seq<real>, effcts: seq<real>, n: nat, pow10: real -> real) returns (r: seq<real>)
    requires n <= |effcts|
    ensures r == list + Rates(effcts[..n], pow10)
  {
    r := list;
    var t := 0;
    while t < n
      invariant 0 <= t <= n
      invariant r == list + Rates(effcts[..t], pow10)
    {
      r := r + [pow10(effcts[t])];
      t := t + 1;
    }
  }

  /** The loop that pushes 10^(effect + mu) for each of the first n tiles onto a flat list. */
  method AppendShiftedRates(list: seq<real>, effcts: seq<real>, n: nat, mu: real, pow10: real -> real)
    returns (r: seq<real>)
    requires n <= |effcts|
    ensures r == list + ShiftedRates(effcts[..n], mu, pow10)
  {
    r := list;
    var t := 0;
    while t < n
      invariant 0 <= t <= n
      invariant r == list + ShiftedRates(effcts[..t], mu, pow10)
    {
      r := r + [pow10(effcts[t] + mu)];
      t := t + 1;
    }
  }

  /** The loop that pushes the first coordinate of each of the first n seeds onto a flat list. */
  method AppendXs(list: seq<real>, seeds: seq<Point>, n: nat) returns (r: seq<real>)
    requires n <= |seeds|
    ensures r == list + Xs(seeds[..n])
  {
    r := list;
    var t := 0;
    while t < n
      invariant 0 <= t <= n
      invariant r == list + Xs(seeds[..t])
    {
      r := r + [seeds[t].x];
      t := t + 1;
    }
  }

  /** The loop that pushes the second coordinate of each of the first n seeds onto a flat list. */
  method AppendYs(list: seq<real>, seeds: seq<Point>, n: nat) returns (r: seq<real>)
    requires n <= |seeds|
    ensures r == list + Ys(seeds[..n])
  {
    r := list;
    var t := 0;
    while t < n
      invariant 0 <= t <= n
      invariant r == list + Ys(seeds[..t])
    {
      r := r + [seeds[t].y];
      t := t + 1;
    }
  }

  lemma SumOfPrefixes(tiles: seq<int>, iter: nat, n: int)
    requires iter < |tiles|
    ensures tiles[iter := n][..iter] == tiles[..iter]
    ensures Sum(tiles[iter := n][..iter + 1]) == Sum(tiles[..iter]) + n
  {
    assert tiles[iter := n][..iter + 1][..iter] == tiles[..iter];
  }

  /**
   * Saving iteration iter, after iterations 0 .. iter-1, records n tiles and
   * appends n entries: the list stays aligned with the recorded counts, and
   * its block for iteration iter is exactly what was appended.
   */
  lemma SavingKeepsAligned(tiles: seq<int>, flat: seq<real>, iter: nat, added: seq<real>)
    requires iter < |tiles| && Aligned(tiles, flat, iter)
    ensures Aligned(tiles[iter := |added|], flat + added, iter + 1)
    ensures var newTiles := tiles[iter := |added|];
            (flat + added)[Sum(newTiles[..iter])..Sum(newTiles[..iter + 1])] == added
  {
    SumOfPrefixes(tiles, iter, |added|);
  }

  /** Row iter of a per-iteration table is replaced by the given row. */
  function SetRow(table: seq<seq<real>>, iter: nat, row: seq<real>): (r: seq<seq<real>>)
    requires iter < |table|
    ensures |r| == |table| && r[iter] == row
    ensures forall k :: 0 <= k < |table| && k != iter ==> r[k] == table[k]
  {
    table[iter := row]
  }

  /**
   * The expected dissimilarities between observed demes implied by the
   * current state: B(a,b) - B(a,a)/2 - B(b,b)/2 + W(a)/2 + W(b)/2.
   */
  function ExpectedDissimilarity(b: Matrix, w: seq<real>, o: nat): (d: Matrix)
    requires IsSquare(b, o) && |w| == o
    ensures IsSquare(d, o)
  {
    seq(o, a requires 0 <= a < o =>
      seq(o, c requires 0 <= c < o =>
        b[a][c] - 0.5 * b[a][a] - 0.5 * b[c][c] + 0.5 * w[a] + 0.5 * w[c]))
  }

  /** The expected dissimilarity of a deme with itself is its within-deme diversity. */
  lemma DissimilarityDiagonal(b: Matrix, w: seq<real>, o: nat, a: nat)
    requires IsSquare(b, o) && |w| == o && a < o
    ensures ExpectedDissimilarity(b, w, o)[a][a] == w[a]
  {
  }

  /** A symmetric resistance matrix gives symmetric expected dissimilarities. */
  lemma DissimilaritySymmetric(b: Matrix, w: seq<real>, o: nat, a: nat, c: nat)
    requires IsSquare(b, o) && |w| == o && a < o && c < o
    requires b[a][c] == b[c][a]
    ensures ExpectedDissimilarity(b, w, o)[a][c] == ExpectedDissimilarity(b, w, o)[c][a]
  {
  }

  /** Entrywise sum of two o-by-o matrices. */
  function MatAdd(x: Matrix, y: Matrix, o: nat): (r: Matrix)
    requires IsSquare(x, o) && IsSquare(y, o)
    ensures IsSquare(r, o)
    ensures forall a, c :: 0 <= a < o && 0 <= c < o ==> r[a][c] == x[a][c] + y[a][c]
  {
    seq(o, a requires 0 <= a < o => seq(o, c requires 0 <= c < o => x[a][c] + y[a][c]))
  }
}
