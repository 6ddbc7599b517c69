/**
 * The dimension-changing (birth/death) move: tile-count bookkeeping,
 * the birth and death probabilities, the negative-binomial tile-count prior
 * ratio and the log-density terms a birth or a death contributes, and the
 * list edits that add or remove one tile.
 */
module BirthDeath {
  import opened Numerics

  /** A birth is proposed when there is exactly one tile (no death is possible) or u < 0.5. */
  predicate ProposesBirth(nowtiles: int, u: real) {
    nowtiles == 1 || u < 0.5
  }

  /** The tile count after a birth or death proposed from nowtiles tiles with uniform u. */
  function NextTileCount(nowtiles: int, u: real): (newtiles: int)
    requires nowtiles >= 1
    ensures newtiles >= 1
    ensures newtiles == nowtiles + 1 || newtiles == nowtiles - 1
    ensures newtiles == nowtiles + 1 <==> ProposesBirth(nowtiles, u)
    ensures nowtiles == 1 ==> newtiles == 2
  {
    if ProposesBirth(nowtiles, u) then nowtiles + 1 else nowtiles - 1
  }

  /** The probabilities of proposing a birth and a death, as the move uses them. */
  datatype MoveOdds = MoveOdds(pBirth: real, pDeath: real)

  /**
   * Both are 0.5, except that pBirth is 1.0 for a birth from one tile and
   * for a death from two tiles (the state its reverse birth starts from).
   * pDeath is never changed.
   */
  function Odds(nowtiles: int, birth: bool): MoveOdds {
    if (birth && nowtiles == 1) || (!birth && nowtiles == 2) then MoveOdds(1.0, 0.5)
    else MoveOdds(0.5, 0.5)
  }

  /** The argument of log(...) in a move's proposal ratio: pDeath/pBirth for a birth, pBirth/pDeath for a death. */
  function OddsArg(nowtiles: int, birth: bool): (r: real)
    ensures r > 0.0
  {
    var odds := Odds(nowtiles, birth);
    if birth then odds.pDeath / odds.pBirth else odds.pBirth / odds.pDeath
  }

  /** The negative-binomial tile-count prior's parameters are usable in the ratios. */
  predicate TilePriorOk(negBiSize: real, negBiProb: real) {
    negBiSize > 0.0 && negBiProb > 0.0
  }

  /** The argument of log(...) in the prior ratio of a birth from k tiles to k + 1. */
  function BirthPriorArg(k: int, negBiSize: real, negBiProb: real): (r: real)
    requires k >= 1 && TilePriorOk(negBiSize, negBiProb)
    ensures r > 0.0
  {
    (k as real + negBiSize) / ((k + 1) as real / negBiProb)
  }

  /** The argument of log(...) in the prior ratio of a death from k tiles to k - 1. */
  function DeathPriorArg(k: int, negBiSize: real, negBiProb: real): (r: real)
    requires k >= 2 && TilePriorOk(negBiSize, negBiProb)
    ensures r > 0.0
  {
    (k as real / negBiProb) / ((k - 1) as real + negBiSize)
  }

  /** The prior-ratio arguments of a birth k -> k+1 and of the death k+1 -> k are reciprocal. */
  lemma PriorArgsReciprocal(k: int, negBiSize: real, negBiProb: real)
    requires k >= 1 && TilePriorOk(negBiSize, negBiProb)
    ensures BirthPriorArg(k, negBiSize, negBiProb) * DeathPriorArg(k + 1, negBiSize, negBiProb) == 1.0
  {
    var a := k as real + negBiSize;
    var b := (k + 1) as real / negBiProb;
    assert BirthPriorArg(k, negBiSize, negBiProb) == a / b;
    assert DeathPriorArg(k + 1, negBiSize, negBiProb) == b / a;
    assert (a / b) * (b / a) == 1.0;
  }

  /** The birth/death odds of a birth from k tiles and of the death from k + 1 are reciprocal. */
  lemma OddsReciprocal(k: int)
    requires k >= 1
    ensures OddsArg(k, true) * OddsArg(k + 1, false) == 1.0
  {
  }

  /** ln(a * b) == ln(a) + ln(b) for this pair. */
  ghost predicate LogOfProduct(ln: real -> real, a: real, b: real) {
    ln(a * b) == ln(a) + ln(b)
  }

  /** ln turns products of positive reals into sums, as the natural logarithm does. */
  ghost predicate LogIsHomomorphic(ln: real -> real) {
    forall a, b :: a > 0.0 && b > 0.0 ==> LogOfProduct(ln, a, b)
  }

  lemma LogOfReciprocals(ln: real -> real, a: real, b: real)
    requires LogIsHomomorphic(ln) && a > 0.0 && b > 0.0 && a * b == 1.0
    ensures ln(a) + ln(b) == 0.0
  {
    assert LogOfProduct(ln, 1.0, 1.0);
    assert LogOfProduct(ln, a, b);
  }

  /**
   * The change of the log prior when a birth from k tiles adds a tile with
   * effect newEffct: the tile-count prior ratio plus the truncated-normal
   * prior density of the new effect.
   */
  function BirthLogPriorDelta(g: Geometry, k: int, negBiSize: real, negBiProb: real,
                              newEffct: real, rateS2: real, halfInterval: real): real
    requires k >= 1 && TilePriorOk(negBiSize, negBiProb)
  {
    g.ln(BirthPriorArg(k, negBiSize, negBiProb)) + g.dtrnormln(newEffct, 0.0, rateS2, halfInterval)
  }

  /**
   * The log proposal ratio of that birth: the birth/death odds, less the
   * density of drawing newEffct around the effect nearEffct of the tile
   * nearest to the new seed.
   */
  function BirthLogProposalRatio(g: Geometry, k: int, newEffct: real, nearEffct: real,
                                 proposalS2: real, halfInterval: real): real
  {
    g.ln(OddsArg(k, true)) - g.dtrnormln(newEffct, nearEffct, proposalS2, halfInterval)
  }

  /** The change of the log prior when a death from k tiles removes a tile with effect oldEffct. */
  function DeathLogPriorDelta(g: Geometry, k: int, negBiSize: real, negBiProb: real,
                              oldEffct: real, rateS2: real, halfInterval: real): real
    requires k >= 2 && TilePriorOk(negBiSize, negBiProb)
  {
    g.ln(DeathPriorArg(k, negBiSize, negBiProb)) - g.dtrnormln(oldEffct, 0.0, rateS2, halfInterval)
  }

  /** The log proposal ratio of that death, nearEffct being the effect of the surviving tile nearest the removed seed. */
  function DeathLogProposalRatio(g: Geometry, k: int, oldEffct: real, nearEffct: real,
                                 proposalS2: real, halfInterval: real): real
  {
    g.ln(OddsArg(k, false)) + g.dtrnormln(oldEffct, nearEffct, proposalS2, halfInterval)
  }

  /**
   * Reversibility of the bookkeeping: a birth from k tiles that adds a tile
   * with effect e beside a tile with effect near, and the death from k + 1
   * tiles that removes that tile again (so that near is again the nearest
   * surviving effect), contribute exactly opposite log prior changes and
   * exactly opposite log proposal ratios.
   */
  lemma {:induction false} BirthDeathTermsCancel(g: Geometry, k: int, negBiSize: real, negBiProb: real,
                                                 e: real, near: real, rateS2: real,
                                                 proposalS2: real, halfInterval: real)
    requires LogIsHomomorphic(g.ln)
    requires k >= 1 && TilePriorOk(negBiSize, negBiProb)
    ensures BirthLogPriorDelta(g, k, negBiSize, negBiProb, e, rateS2, halfInterval)
          + DeathLogPriorDelta(g, k + 1, negBiSize, negBiProb, e, rateS2, halfInterval) == 0.0
    ensures BirthLogProposalRatio(g, k, e, near, proposalS2, halfInterval)
          + DeathLogProposalRatio(g, k + 1, e, near, proposalS2, halfInterval) == 0.0
  {
    PriorArgsReciprocal(k, negBiSize, negBiProb);
    LogOfReciprocals(g.ln, BirthPriorArg(k, negBiSize, negBiProb), DeathPriorArg(k + 1, negBiSize, negBiProb));
    OddsReciprocal(k);
    LogOfReciprocals(g.ln, OddsArg(k, true), OddsArg(k + 1, false));
  }

  /** lgamma satisfies the gamma function's recurrence on the log scale. */
  ghost predicate GammaRecurrence(lgamma: real -> real, ln: real -> real) {
    forall x :: x > 0.0 ==> GammaStep(lgamma, ln, x)
  }

  /** lgamma(x + 1) == ln(x) + lgamma(x) at this x. */
  ghost predicate GammaStep(lgamma: real -> real, ln: real -> real, x: real) {
    lgamma(x + 1.0) == ln(x) + lgamma(x)
  }

  /** The tile-count terms of the log prior: the negative-binomial log-density of k tiles, without its constant. */
  function NegBinLogPrior(lgamma: real -> real, ln: real -> real, k: int, negBiSize: real, negBiProb: real): real {
    lgamma(negBiSize + k as real) - lgamma(k as real + 1.0) + k as real * ln(negBiProb)
  }

  /**
   * The from-scratch tile-count prior and the incremental birth ratio agree:
   * going from k to k + 1 tiles changes the negative-binomial log prior by
   * exactly ln((k + negBiSize) / ((k + 1) / negBiProb)).
   */
  lemma {:induction false} BirthPriorArgMatchesPrior(lgamma: real -> real, ln: real -> real,
                                                     k: int, negBiSize: real, negBiProb: real)
    requires LogIsHomomorphic(ln) && GammaRecurrence(lgamma, ln)
    requires k >= 1 && TilePriorOk(negBiSize, negBiProb)
    ensures NegBinLogPrior(lgamma, ln, k + 1, negBiSize, negBiProb) - NegBinLogPrior(lgamma, ln, k, negBiSize, negBiProb)
            == ln(BirthPriorArg(k, negBiSize, negBiProb))
  {
    var a := k as real + negBiSize;
    var b := (k + 1) as real;
    var lp := ln(negBiProb);
    // the lgamma terms: lgamma(a + 1) - lgamma(a) - (lgamma(b + 1) - lgamma(b)) == ln(a) - ln(b)
    assert GammaStep(lgamma, ln, a);
    assert GammaStep(lgamma, ln, b);
    assert negBiSize + (k + 1) as real == a + 1.0;
    assert (k + 1) as real + 1.0 == b + 1.0;
    assert negBiSize + k as real == a;
    assert k as real + 1.0 == b;
    assert (k + 1) as real * lp - k as real * lp == lp;
    assert NegBinLogPrior(lgamma, ln, k + 1, negBiSize, negBiProb) - NegBinLogPrior(lgamma, ln, k, negBiSize, negBiProb)
           == ln(a) - ln(b) + lp;
    // ln(a / (b / p)) == ln(a) - ln(b / p) == ln(a) - ln(b) + ln(p)
    var c := b / negBiProb;
    assert BirthPriorArg(k, negBiSize, negBiProb) == a / c;
    LogOfQuotient(ln, a, c);
    LogOfQuotient(ln, b, negBiProb);
  }

  lemma LogOfQuotient(ln: real -> real, a: real, b: real)
    requires LogIsHomomorphic(ln) && a > 0.0 && b > 0.0
    ensures ln(a / b) == ln(a) - ln(b)
  {
    assert (a / b) * b == a;
    assert LogOfProduct(ln, a / b, b);
  }

  /** insertRow / insertElem: the new tile is appended after the existing ones. */
  function Insert<T>(s: seq<T>, x: T): (r: seq<T>)
    ensures |r| == |s| + 1 && r[|s|] == x && r[..|s|] == s
  {
    s + [x]
  }

  /** removeRow / removeElem: the tile at index i is deleted and the later ones move down by one. */
  function RemoveAt<T>(s: seq<T>, i: int): (r: seq<T>)
    requires 0 <= i < |s|
    ensures |r| == |s| - 1
    ensures forall j :: 0 <= j < |r| ==> r[j] == if j < i then s[j] else s[j + 1]
  {
    s[..i] + s[i + 1..]
  }

  /** Removing the tile a birth has just appended restores the tile list exactly. */
  lemma DeathUndoesBirth<T>(s: seq<T>, x: T)
    ensures RemoveAt(Insert(s, x), |s|) == s
  {
  }

  /** Removing a tile keeps every property that each of the tiles had. */
  lemma RemoveAtKeeps<T>(s: seq<T>, i: int, P: T -> bool)
    requires 0 <= i < |s|
    requires forall j :: 0 <= j < |s| ==> P(s[j])
    ensures forall j :: 0 <= j < |RemoveAt(s, i)| ==> P(RemoveAt(s, i)[j])
  {
  }
}
