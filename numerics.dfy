/**
 * Values shared by the whole sampler, and the parts of it that are
 * floating-point numerics or foreign code: these are carried as
 * function-valued fields (never given a body of their own), so that the
 * discrete skeleton can be stated and proved independently of them.
 */
module Numerics {

  /** A dense matrix as a sequence of rows. */
  type Matrix = seq<seq<real>>

  /** A log-density that may be minus infinity, as the sampler's -Inf. */
  datatype LogDensity = NegInf | Finite(value: real)

  /** A seed of a Voronoi tessellation: one row (x, y) of a seeds matrix. */
  datatype Point = Point(x: real, y: real)

  /** One entry (row, column, value) of a sparse matrix under construction. */
  datatype Triplet = Triplet(row: int, col: int, value: real)

  /** What the Wishart pseudo-likelihood returns: the log-likelihood and the per-locus trace statistics. */
  datatype Likelihood = Likelihood(ll: real, triDeltaQD: seq<real>)

  function Abs(x: real): real {
    if x < 0.0 then -x else x
  }

  predicate IsSquare(m: Matrix, n: nat) {
    |m| == n && forall i :: 0 <= i < n ==> |m[i]| == n
  }

  /**
   * The habitat graph: d demes of which the first o are observed, and an
   * undirected edge list over deme indices.
   */
  datatype Graph = Graph(d: nat, o: nat, edges: seq<(int, int)>) {
    ghost predicate Valid() {
      && o <= d
      && forall e :: 0 <= e < |edges| ==> 0 <= edges[e].0 < d && 0 <= edges[e].1 < d
    }
  }

  /**
   * The operations the sampler calls but whose code is not part of this
   * model: the habitat's point-membership test, nearest-seed colouring of
   * the demes, the index of the seed nearest to a point, the floating-point
   * functions, the dense resistance computation (Laplacian, Schur complement
   * and inverse) and the Wishart pseudo-likelihood.
   */
  datatype Geometry = Geometry(
    inHabitat: Point -> bool,
    closestToDeme: seq<Point> -> seq<int>,
    nearest: (seq<Point>, Point) -> int,
    pow10: real -> real,
    ln: real -> real,
    dtrnormln: (real, real, real, real) -> real,
    resistance: (seq<Triplet>, real) -> Matrix,
    wishart: (Matrix, seq<real>, seq<real>) -> Likelihood)
  {
    /**
     * What the sampler relies on from these operations: a colouring gives
     * every deme the index of an existing tile, the nearest seed is an
     * existing one, the resistance matrix is o-by-o and the likelihood has
     * one trace statistic per locus.
     */
    ghost predicate Valid(d: nat, o: nat, loci: nat) {
      && (forall seeds {:trigger closestToDeme(seeds)} :: |seeds| > 0 ==>
            |closestToDeme(seeds)| == d &&
            forall a :: 0 <= a < d ==> 0 <= closestToDeme(seeds)[a] < |seeds|)
      && (forall seeds, pt :: |seeds| > 0 ==> 0 <= nearest(seeds, pt) < |seeds|)
      && (forall t, c :: IsSquare(resistance(t, c), o))
      && (forall b, w, s2 :: |wishart(b, w, s2).triDeltaQD| == loci)
    }
  }

  /**
   * The seeded random generator. The k-th draw of the run, whatever its
   * kind, is the value of that kind's function at position k; every draw
   * advances the shared counter by one, so the order of draws decides the
   * trajectory. Drawing a point inside the habitat is one draw here.
   */
  /** Every point the generator draws in the habitat lies in the habitat. */
  ghost predicate HabitatDraws(draw: RandomDraw, geo: Geometry) {
    forall k :: geo.inHabitat(draw.habitatPoint(k))
  }

  class RandomDraw {
    const uniform: nat -> real
    const uniformInt: (nat, int, int) -> int
    const normal: (nat, real, real) -> real
    const truncNormal: (nat, real, real, real) -> real
    const habitatPoint: nat -> Point
    var count: nat

    ghost predicate Valid() {
      && (forall k :: 0.0 < uniform(k) < 1.0)
      && (forall k, lo, hi :: lo <= hi ==> lo <= uniformInt(k, lo, hi) <= hi)
      && (forall k, mu, s2, bound :: 0.0 <= bound ==> Abs(truncNormal(k, mu, s2, bound)) <= bound)
    }

    constructor (uniform: nat -> real, uniformInt: (nat, int, int) -> int,
                 normal: (nat, real, real) -> real, truncNormal: (nat, real, real, real) -> real,
                 habitatPoint: nat -> Point)
      requires forall k :: 0.0 < uniform(k) < 1.0
      requires forall k, lo, hi :: lo <= hi ==> lo <= uniformInt(k, lo, hi) <= hi
      requires forall k, mu, s2, bound :: 0.0 <= bound ==> Abs(truncNormal(k, mu, s2, bound)) <= bound
      ensures Valid() && count == 0
      ensures this.uniform == uniform && this.uniformInt == uniformInt && this.normal == normal
      ensures this.truncNormal == truncNormal && this.habitatPoint == habitatPoint
    {
      this.uniform := uniform;
      this.uniformInt := uniformInt;
      this.normal := normal;
      this.truncNormal := truncNormal;
      this.habitatPoint := habitatPoint;
      count := 0;
    }

    /** runif: a uniform variate in (0, 1). */
    method Runif() returns (u: real)
      modifies this`count
      ensures u == uniform(old(count)) && count == old(count) + 1
    {
      u := uniform(count);
      count := count + 1;
    }

    /** runif_int: a uniform integer in [lo, hi]. */
    method RunifInt(lo: int, hi: int) returns (i: int)
      requires Valid() && lo <= hi
      modifies this`count
      ensures i == uniformInt(old(count), lo, hi) && count == old(count) + 1
      ensures lo <= i <= hi
    {
      i := uniformInt(count, lo, hi);
      count := count + 1;
    }

    /** rnorm: a normal variate with the given mean and scale. */
    method Rnorm(mu: real, s2: real) returns (x: real)
      modifies this`count
      ensures x == normal(old(count), mu, s2) && count == old(count) + 1
    {
      x := normal(count, mu, s2);
      count := count + 1;
    }

    /** rtrnorm: a normal variate truncated to [-bound, bound]. */
    method Rtrnorm(mu: real, s2: real, bound: real) returns (x: real)
      requires Valid() && 0.0 <= bound
      modifies this`count
      ensures x == truncNormal(old(count), mu, s2, bound) && count == old(count) + 1
      ensures Abs(x) <= bound
    {
      x := truncNormal(count, mu, s2, bound);
      count := count + 1;
    }

    /** randpoint_in_habitat for one point, taken as a single draw. */
    method RandPointInHabitat() returns (pt: Point)
      modifies this`count
      ensures pt == habitatPoint(old(count)) && count == old(count) + 1
    {
      pt := habitatPoint(count);
      count := count + 1;
    }
  }
}
