/** The seven proposal kinds of the reversible-jump sampler and how one is chosen. */
module MoveTypes {

  /**
   * The move kinds. UnknownMoveType is the value a move holds before one is
   * chosen; no choice ever yields it.
   */
  datatype MoveType =
    | UnknownMoveType
    | QVoronoiBirthDeath
    | MVoronoiBirthDeath
    | QVoronoiPointMove
    | MVoronoiPointMove
    | QVoronoiRateUpdate
    | MVoronoiRateUpdate
    | MMeanRateUpdate

  /** The four categories that the first uniform splits into quarters. */
  datatype Category = BirthDeath | PointMove | RateUpdate | MeanRateUpdate

  function CategoryOf(move: MoveType): Category
    requires move != UnknownMoveType
  {
    match move
    case QVoronoiBirthDeath | MVoronoiBirthDeath => BirthDeath
    case QVoronoiPointMove | MVoronoiPointMove => PointMove
    case QVoronoiRateUpdate | MVoronoiRateUpdate => RateUpdate
    case MMeanRateUpdate => MeanRateUpdate
  }

  /** The move acts on the diversity ("q") tessellation. */
  predicate ActsOnQ(move: MoveType) {
    move.QVoronoiBirthDeath? || move.QVoronoiPointMove? || move.QVoronoiRateUpdate?
  }

  /** The move acts on the migration ("m") tessellation or on the mean migration rate. */
  predicate ActsOnM(move: MoveType) {
    move.MVoronoiBirthDeath? || move.MVoronoiPointMove? || move.MVoronoiRateUpdate? || move.MMeanRateUpdate?
  }

  predicate IsBirthDeath(move: MoveType) {
    move.QVoronoiBirthDeath? || move.MVoronoiBirthDeath?
  }

  /**
   * The move chosen from the two uniforms u1 and u2 and the probability
   * qVoronoiPr of acting on the diversity tessellation.
   */
  function MoveFor(u1: real, u2: real, qVoronoiPr: real): (move: MoveType)
    ensures move != UnknownMoveType
    ensures ActsOnQ(move) || ActsOnM(move)
    ensures CategoryOf(move) ==
              if u1 < 0.25 then BirthDeath
              else if u1 < 0.5 then PointMove
              else if u1 < 0.75 then RateUpdate
              else MeanRateUpdate
    ensures CategoryOf(move) != MeanRateUpdate ==> (ActsOnQ(move) <==> u2 < qVoronoiPr)
  {
    if u1 < 0.25 then
      if u2 < qVoronoiPr then QVoronoiBirthDeath else MVoronoiBirthDeath
    else if u1 < 0.5 then
      if u2 < qVoronoiPr then QVoronoiPointMove else MVoronoiPointMove
    else if u1 < 0.75 then
      if u2 < qVoronoiPr then QVoronoiRateUpdate else MVoronoiRateUpdate
    else
      MMeanRateUpdate
  }

  /** The mean-rate update does not look at the second uniform. */
  lemma MeanRateIgnoresSecondDraw(u1: real, u2: real, u2': real, qVoronoiPr: real)
    requires 0.75 <= u1
    ensures MoveFor(u1, u2, qVoronoiPr) == MoveFor(u1, u2', qVoronoiPr) == MMeanRateUpdate
  {
  }

  /**
   * Every one of the seven kinds is chosen by some pair of uniforms in
   * [0, 1) whenever the q probability is strictly between 0 and 1.
   */
  lemma EveryMoveIsChosen(move: MoveType, qVoronoiPr: real)
    requires move != UnknownMoveType
    requires 0.0 < qVoronoiPr < 1.0
    ensures exists u1, u2 :: 0.0 <= u1 < 1.0 && 0.0 <= u2 < 1.0 && MoveFor(u1, u2, qVoronoiPr) == move
  {
    var u1 := match CategoryOf(move)
      case BirthDeath => 0.0
      case PointMove => 0.25
      case RateUpdate => 0.5
      case MeanRateUpdate => 0.75;
    var u2 := if ActsOnQ(move) then 0.0 else qVoronoiPr;
    assert MoveFor(u1, u2, qVoronoiPr) == move;
  }
}
