/**
 * The resistance model's discrete skeleton: every deme takes the effect of
 * the tile its colour names. Within-deme diversity maps each observed deme
 * through its diversity-tile colour; the between-deme part first turns
 * every graph edge into two symmetric sparse-matrix triplets, whose
 * assembly is then inverted by the numerics (not modelled here).
 */
module Resistance {
  import opened Numerics

  /** The scale constants (Bconst, Wconst): (1.0, 2.0) for diploid data and (0.25, 1.0) for haploid data. */
  function PloidyConstants(diploid: bool): (bw: (real, real))
    ensures bw.0 > 0.0 && bw.1 > 0.0
    ensures bw.1 == 2.0 * bw.0 || bw.1 == 4.0 * bw.0
  {
    if diploid then (1.0, 2.0) else (0.25, 1.0)
  }

  /** Every one of the first n demes has a colour naming an existing tile. */
  predicate ColoursValid(colors: seq<int>, n: nat, tiles: int) {
    n <= |colors| && forall a :: 0 <= a < n ==> 0 <= colors[a] < tiles
  }

  /** The within-deme diversity of each of the o observed demes: Wconst * 10^(effect of its tile). */
  function WithinDiversity(colors: seq<int>, effcts: seq<real>, o: nat, wconst: real, pow10: real -> real): (w: seq<real>)
    requires ColoursValid(colors, o, |effcts|)
    ensures |w| == o
  {
    seq(o, a requires 0 <= a < o => wconst * pow10(effcts[colors[a]]))
  }

  /** Demes of the same colour get the same within-deme diversity. */
  lemma SameTileSameDiversity(colors: seq<int>, effcts: seq<real>, o: nat, wconst: real, pow10: real -> real, a: nat, b: nat)
    requires ColoursValid(colors, o, |effcts|) && a < o && b < o && colors[a] == colors[b]
    ensures WithinDiversity(colors, effcts, o, wconst, pow10)[a] == WithinDiversity(colors, effcts, o, wconst, pow10)[b]
  {
  }

  /**
   * Changing the effect of one tile changes the diversity of exactly the
   * demes of that colour: every other deme keeps its value.
   */
  lemma RateUpdateIsLocal(colors: seq<int>, effcts: seq<real>, o: nat, wconst: real, pow10: real -> real,
                          tile: nat, e: real, a: nat)
    requires ColoursValid(colors, o, |effcts|) && tile < |effcts| && a < o && colors[a] != tile
    ensures WithinDiversity(colors, effcts[tile := e], o, wconst, pow10)[a]
         == WithinDiversity(colors, effcts, o, wconst, pow10)[a]
  {
  }

  /**
   * calc_within: fill W deme by deme with 10^(effect of the deme's tile),
   * then scale by Wconst.
   */
  method CalcWithin(qColors: seq<int>, qEffcts: seq<real>, o: nat, wconst: real, pow10: real -> real)
    returns (w: seq<real>)
    requires ColoursValid(qColors, o, |qEffcts|)
    ensures w == WithinDiversity(qColors, qEffcts, o, wconst, pow10)
  {
    w := [];
    var alpha := 0;
    while alpha < o
      invariant 0 <= alpha <= o && |w| == alpha
      invariant forall a :: 0 <= a < alpha ==> w[a] == pow10(qEffcts[qColors[a]])
    {
      w := w + [pow10(qEffcts[qColors[alpha]])];
      alpha := alpha + 1;
    }
    var scaled := seq(o, a requires 0 <= a < o => wconst * w[a]);
    assert forall a :: 0 <= a < o ==> scaled[a] == WithinDiversity(qColors, qEffcts, o, wconst, pow10)[a];
    w := scaled;
  }

  /** The migration rate of edge (alpha, beta): the mean of 10^(mrateMu + effect) at its two ends. */
  function EdgeRate(mColors: seq<int>, mEffcts: seq<real>, mrateMu: real, pow10: real -> real, alpha: int, beta: int): real
    requires 0 <= alpha < |mColors| && 0 <= beta < |mColors|
    requires 0 <= mColors[alpha] < |mEffcts| && 0 <= mColors[beta] < |mEffcts|
  {
    0.5 * pow10(mrateMu + mEffcts[mColors[alpha]]) + 0.5 * pow10(mrateMu + mEffcts[mColors[beta]])
  }

  /** The edges join demes whose colours name existing tiles. */
  predicate EdgesColoured(edges: seq<(int, int)>, mColors: seq<int>, tiles: int) {
    forall e :: 0 <= e < |edges| ==>
      && 0 <= edges[e].0 < |mColors| && 0 <= edges[e].1 < |mColors|
      && 0 <= mColors[edges[e].0] < tiles && 0 <= mColors[edges[e].1] < tiles
  }

  /** The triplets for the edges in order: (alpha, beta, m) and then (beta, alpha, m) for each edge. */
  function EdgeTriplets(edges: seq<(int, int)>, mColors: seq<int>, mEffcts: seq<real>, mrateMu: real,
                        pow10: real -> real): (t: seq<Triplet>)
    requires EdgesColoured(edges, mColors, |mEffcts|)
    ensures |t| == 2 * |edges|
  {
    if edges == [] then []
    else
      var last := edges[|edges| - 1];
      var m := EdgeRate(mColors, mEffcts, mrateMu, pow10, last.0, last.1);
      EdgeTriplets(edges[..|edges| - 1], mColors, mEffcts, mrateMu, pow10)
        + [Triplet(last.0, last.1, m), Triplet(last.1, last.0, m)]
  }

  /** The entry (a, b) of the matrix assembled from triplets: duplicate positions are summed. */
  function Entry(t: seq<Triplet>, a: int, b: int): real {
    if t == [] then 0.0
    else Entry(t[..|t| - 1], a, b) + (if t[|t| - 1].row == a && t[|t| - 1].col == b then t[|t| - 1].value else 0.0)
  }

  lemma EntryAppend(t: seq<Triplet>, u: seq<Triplet>, a: int, b: int)
    ensures Entry(t + u, a, b) == Entry(t, a, b) + Entry(u, a, b)
    decreases |u|
  {
    if u == [] {
      assert t + u == t;
    } else {
      assert (t + u)[..|t + u| - 1] == t + u[..|u| - 1];
      EntryAppend(t, u[..|u| - 1], a, b);
    }
  }

  /** The edge rate does not depend on the orientation of the edge. */
  lemma EdgeRateSymmetric(mColors: seq<int>, mEffcts: seq<real>, mrateMu: real, pow10: real -> real, alpha: int, beta: int)
    requires 0 <= alpha < |mColors| && 0 <= beta < |mColors|
    requires 0 <= mColors[alpha] < |mEffcts| && 0 <= mColors[beta] < |mEffcts|
    ensures EdgeRate(mColors, mEffcts, mrateMu, pow10, alpha, beta) == EdgeRate(mColors, mEffcts, mrateMu, pow10, beta, alpha)
  {
  }

  lemma EntryOfMirroredPair(alpha: int, beta: int, m: real, a: int, b: int)
    ensures Entry([Triplet(alpha, beta, m), Triplet(beta, alpha, m)], a, b)
         == Entry([Triplet(alpha, beta, m), Triplet(beta, alpha, m)], b, a)
  {
    var first := [Triplet(alpha, beta, m)];
    var pair := first + [Triplet(beta, alpha, m)];
    assert pair[..1] == first;
    assert first[..0] == [];
    var x := if alpha == a && beta == b then m else 0.0;
    var y := if beta == a && alpha == b then m else 0.0;
    assert Entry(first, a, b) == x;
    assert Entry(first, b, a) == y;
    assert Entry(pair, a, b) == x + y;
    assert Entry(pair, b, a) == y + x;
  }

  /** The migration matrix assembled from the edge triplets is symmetric. */
  lemma {:induction false} MigrationMatrixSymmetric(edges: seq<(int, int)>, mColors: seq<int>, mEffcts: seq<real>,
                                                    mrateMu: real, pow10: real -> real, a: int, b: int)
    requires EdgesColoured(edges, mColors, |mEffcts|)
    ensures Entry(EdgeTriplets(edges, mColors, mEffcts, mrateMu, pow10), a, b)
         == Entry(EdgeTriplets(edges, mColors, mEffcts, mrateMu, pow10), b, a)
  {
    if edges != [] {
      var init := edges[..|edges| - 1];
      var last := edges[|edges| - 1];
      var m := EdgeRate(mColors, mEffcts, mrateMu, pow10, last.0, last.1);
      var pair := [Triplet(last.0, last.1, m), Triplet(last.1, last.0, m)];
      assert EdgesColoured(init, mColors, |mEffcts|);
      assert EdgeTriplets(edges, mColors, mEffcts, mrateMu, pow10)
          == EdgeTriplets(init, mColors, mEffcts, mrateMu, pow10) + pair;
      MigrationMatrixSymmetric(init, mColors, mEffcts, mrateMu, pow10, a, b);
      EntryAppend(EdgeTriplets(init, mColors, mEffcts, mrateMu, pow10), pair, a, b);
      EntryAppend(EdgeTriplets(init, mColors, mEffcts, mrateMu, pow10), pair, b, a);
      EntryOfMirroredPair(last.0, last.1, m, a, b);
    }
  }

  /**
   * The edge-list part of calc_between, followed by the dense resistance
   * computation: push two triplets per edge, then hand them to the numerics.
   */
  method CalcBetween(edges: seq<(int, int)>, mColors: seq<int>, mEffcts: seq<real>, mrateMu: real,
                     pow10: real -> real, resistance: (seq<Triplet>, real) -> Matrix, bconst: real)
    returns (b: Matrix)
    requires EdgesColoured(edges, mColors, |mEffcts|)
    ensures b == resistance(EdgeTriplets(edges, mColors, mEffcts, mrateMu, pow10), bconst)
  {
    var coefficients: seq<Triplet> := [];
    var edge := 0;
    while edge < |edges|
      invariant 0 <= edge <= |edges|
      invariant EdgesColoured(edges[..edge], mColors, |mEffcts|)
      invariant coefficients == EdgeTriplets(edges[..edge], mColors, mEffcts, mrateMu, pow10)
    {
      var (alpha, beta) := edges[edge];
      var log10mAlpha := mrateMu + mEffcts[mColors[alpha]];
      var log10mBeta := mrateMu + mEffcts[mColors[beta]];
      var mAB := 0.5 * pow10(log10mAlpha) + 0.5 * pow10(log10mBeta);
      coefficients := coefficients + [Triplet(alpha, beta, mAB)];
      coefficients := coefficients + [Triplet(beta, alpha, mAB)];
      assert edges[..edge + 1][..edge] == edges[..edge];
      edge := edge + 1;
    }
    assert edges[..edge] == edges;
    b := resistance(coefficients, bconst);
  }
}
