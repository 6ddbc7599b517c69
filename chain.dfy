/**
 * The sampler's state as a value, the proposal each move kind stages from
 * it, the acceptance rule and what acceptance installs, and the invariant
 * the chain keeps: both tessellations are well formed and inside the prior's
 * support, every deme is coloured by its nearest seed, and the cached
 * within-deme diversities W, resistance distances B and likelihood are
 * those of the current tessellations.
 */
module Chain {
  import opened Numerics
  import opened MoveTypes
  import opened BirthDeath
  import opened Resistance

  /** The run's tuning constants that the moves read. */
  datatype Params = Params(
    qVoronoiPr: real,
    qEffctHalfInterval: real,
    mEffctHalfInterval: real,
    mrateMuHalfInterval: real,
    qEffctProposalS2: real,
    mEffctProposalS2: real,
    mrateMuProposalS2: real,
    qSeedsProposalS2x: real,
    qSeedsProposalS2y: real,
    mSeedsProposalS2x: real,
    mSeedsProposalS2y: real,
    negBiSize: real,
    negBiProb: real)

  /** Everything a move depends on besides the state: constants, graph, foreign numerics, and the number of loci. */
  datatype Env = Env(params: Params, graph: Graph, geo: Geometry, bconst: real, wconst: real, loci: nat)

  /** One Voronoi tessellation: tile count, seeds, one effect per tile, and each deme's tile ("colour"). */
  datatype Tess = Tess(tiles: int, seeds: seq<Point>, effcts: seq<real>, colors: seq<int>)

  /** The chain's current values (the now* fields). */
  datatype ChainState = ChainState(
    q: Tess,
    m: Tess,
    mrateMu: real,
    qrateS2: real,
    mrateS2: real,
    sigma2: seq<real>,
    W: seq<real>,
    B: Matrix,
    triDeltaQD: seq<real>,
    pi: real,
    ll: real)

  /** The values a proposal stages (the new* fields of a Proposal). */
  datatype Staged = Staged(
    move: MoveType,
    q: Tess,
    m: Tess,
    mrateMu: real,
    W: seq<real>,
    B: Matrix,
    triDeltaQD: seq<real>,
    pi: LogDensity,
    ll: LogDensity,
    ratioln: real)

  // ---------------------------------------------------------------------
  // Well-formedness, support and the chain invariant

  /** The constants and foreign operations behave as the sampler relies on. */
  ghost predicate EnvOk(env: Env) {
    && env.graph.Valid()
    && env.geo.Valid(env.graph.d, env.graph.o, env.loci)
    && env.params.qEffctHalfInterval >= 0.0
    && env.params.mEffctHalfInterval >= 0.0
    && TilePriorOk(env.params.negBiSize, env.params.negBiProb)
  }

  /** At least one tile, one seed and one effect per tile, and every one of the d demes coloured by an existing tile. */
  predicate TessShaped(t: Tess, d: nat) {
    && t.tiles >= 1
    && |t.seeds| == t.tiles
    && |t.effcts| == t.tiles
    && |t.colors| == d
    && ColoursValid(t.colors, d, t.tiles)
  }

  /** The state has the shapes every move needs. */
  ghost predicate WellFormed(s: ChainState, env: Env) {
    && EnvOk(env)
    && TessShaped(s.q, env.graph.d)
    && TessShaped(s.m, env.graph.d)
    && |s.sigma2| == env.loci
    && s.qrateS2 > 0.0
    && s.mrateS2 > 0.0
  }

  /** Every seed lies in the habitat and every effect within [-half, half]. */
  predicate TessSupported(t: Tess, g: Geometry, half: real) {
    && (forall i :: 0 <= i < |t.seeds| ==> g.inHabitat(t.seeds[i]))
    && (forall i :: 0 <= i < |t.effcts| ==> Abs(t.effcts[i]) <= half)
  }

  /** The state lies in the support of the prior. */
  predicate InSupport(s: ChainState, env: Env) {
    && TessSupported(s.q, env.geo, env.params.qEffctHalfInterval)
    && TessSupported(s.m, env.geo, env.params.mEffctHalfInterval)
    && Abs(s.mrateMu) <= env.params.mrateMuHalfInterval
  }

  lemma ShapedColours(t: Tess, d: nat, o: nat)
    requires TessShaped(t, d) && o <= d
    ensures ColoursValid(t.colors, o, |t.effcts|)
  {
  }

  lemma ShapedEdges(t: Tess, graph: Graph)
    requires graph.Valid() && TessShaped(t, graph.d)
    ensures EdgesColoured(graph.edges, t.colors, |t.effcts|)
  {
  }

  /** calc_within for the given colouring and effects. */
  function Within(env: Env, t: Tess): (w: seq<real>)
    requires EnvOk(env) && TessShaped(t, env.graph.d)
    ensures |w| == env.graph.o
  {
    ShapedColours(t, env.graph.d, env.graph.o);
    WithinDiversity(t.colors, t.effcts, env.graph.o, env.wconst, env.geo.pow10)
  }

  /** calc_between for the given colouring, effects and mean rate. */
  function Between(env: Env, t: Tess, mrateMu: real): Matrix
    requires EnvOk(env) && TessShaped(t, env.graph.d)
  {
    ShapedEdges(t, env.graph);
    env.geo.resistance(EdgeTriplets(env.graph.edges, t.colors, t.effcts, mrateMu, env.geo.pow10), env.bconst)
  }

  /** The chain invariant. */
  ghost predicate Inv(s: ChainState, env: Env) {
    && WellFormed(s, env)
    && s.q.colors == env.geo.closestToDeme(s.q.seeds)
    && s.m.colors == env.geo.closestToDeme(s.m.seeds)
    && InSupport(s, env)
    && s.W == Within(env, s.q)
    && s.B == Between(env, s.m, s.mrateMu)
    && env.geo.wishart(s.B, s.W, s.sigma2) == Likelihood(s.ll, s.triDeltaQD)
  }

  /** A tessellation coloured by its nearest seeds is well shaped as soon as its counts agree. */
  lemma ColouredIsShaped(t: Tess, env: Env)
    requires EnvOk(env) && t.tiles >= 1 && |t.seeds| == t.tiles && |t.effcts| == t.tiles
    requires t.colors == env.geo.closestToDeme(t.seeds)
    ensures TessShaped(t, env.graph.d)
  {
  }

  // ---------------------------------------------------------------------
  // The effect terms of the prior

  /** The sum of squares of the effects (squaredNorm). */
  function SumSq(e: seq<real>): (r: real)
    ensures r >= 0.0
  {
    if e == [] then 0.0 else SumSq(e[..|e| - 1]) + e[|e| - 1] * e[|e| - 1]
  }

  /** The effects' term of the log prior: -squaredNorm / (2 rateS2). */
  function EffectLogPrior(e: seq<real>, rateS2: real): (r: real)
    requires rateS2 > 0.0
    ensures r <= 0.0
  {
    -SumSq(e) / (2.0 * rateS2)
  }

  lemma {:induction false} SumSqUpdate(e: seq<real>, t: nat, x: real)
    requires t < |e|
    ensures SumSq(e[t := x]) == SumSq(e) - e[t] * e[t] + x * x
  {
    var n := |e| - 1;
    if t < n {
      assert e[t := x][..n] == e[..n][t := x];
      SumSqUpdate(e[..n], t, x);
    } else {
      assert e[t := x][..n] == e[..n];
    }
  }

  /**
   * The incremental prior update of a rate move agrees with the from-scratch
   * prior: replacing effect t by x changes the effects' log prior term by
   * exactly -(x^2 - e[t]^2) / (2 rateS2).
   */
  lemma RateUpdatePriorDelta(e: seq<real>, t: nat, x: real, rateS2: real, pi: real)
    requires t < |e| && rateS2 > 0.0
    ensures EffectLogPrior(e[t := x], rateS2) == EffectLogPrior(e, rateS2) - (x * x - e[t] * e[t]) / (2.0 * rateS2)
    ensures RateMoveLogPrior(pi, e[t], x, rateS2) - pi == EffectLogPrior(e[t := x], rateS2) - EffectLogPrior(e, rateS2)
  {
    SumSqUpdate(e, t, x);
  }

  // ---------------------------------------------------------------------
  // eval_prior's range test as written, and as evidently intended

  /** The smallest absolute value of a non-empty vector (cwiseAbs().minCoeff()). */
  function MinAbs(e: seq<real>): (r: real)
    requires |e| > 0
    ensures forall i :: 0 <= i < |e| ==> r <= Abs(e[i])
    ensures exists i :: 0 <= i < |e| && r == Abs(e[i])
  {
    if |e| == 1 then Abs(e[0])
    else
      var rest := MinAbs(e[1..]);
      assert forall i :: 1 <= i < |e| ==> e[i] == e[1..][i - 1];
      if Abs(e[0]) <= rest then Abs(e[0]) else rest
  }

  /** The largest absolute value of a non-empty vector (cwiseAbs().maxCoeff()). */
  function MaxAbs(e: seq<real>): (r: real)
    requires |e| > 0
    ensures forall i :: 0 <= i < |e| ==> Abs(e[i]) <= r
    ensures exists i :: 0 <= i < |e| && r == Abs(e[i])
  {
    if |e| == 1 then Abs(e[0])
    else
      var rest := MaxAbs(e[1..]);
      assert forall i :: 1 <= i < |e| ==> e[i] == e[1..][i - 1];
      if Abs(e[0]) >= rest then Abs(e[0]) else rest
  }

  /** The seeds of the first tiles tiles all lie in the habitat. */
  predicate SeedsInHabitat(seeds: seq<Point>, tiles: int, g: Geometry)
    requires tiles <= |seeds|
  {
    forall i :: 0 <= i < tiles ==> g.inHabitat(seeds[i])
  }

  /** The range test of eval_prior as written: an effect vector is out of range only when its smallest |effect| exceeds the half-interval. */
  predicate PriorInRange(s: ChainState, env: Env)
    requires s.q.tiles <= |s.q.seeds| && s.m.tiles <= |s.m.seeds|
    requires |s.q.effcts| > 0 && |s.m.effcts| > 0
  {
    && SeedsInHabitat(s.q.seeds, s.q.tiles, env.geo)
    && SeedsInHabitat(s.m.seeds, s.m.tiles, env.geo)
    && !(MinAbs(s.q.effcts) > env.params.qEffctHalfInterval)
    && !(MinAbs(s.m.effcts) > env.params.mEffctHalfInterval)
    && !(Abs(s.mrateMu) > env.params.mrateMuHalfInterval)
  }

  /** The same test with maxCoeff: every |effect| must be within the half-interval. */
  predicate PriorInRangeCorrected(s: ChainState, env: Env)
    requires s.q.tiles <= |s.q.seeds| && s.m.tiles <= |s.m.seeds|
    requires |s.q.effcts| > 0 && |s.m.effcts| > 0
  {
    && SeedsInHabitat(s.q.seeds, s.q.tiles, env.geo)
    && SeedsInHabitat(s.m.seeds, s.m.tiles, env.geo)
    && !(MaxAbs(s.q.effcts) > env.params.qEffctHalfInterval)
    && !(MaxAbs(s.m.effcts) > env.params.mEffctHalfInterval)
    && !(Abs(s.mrateMu) > env.params.mrateMuHalfInterval)
  }

  /** The corrected test accepts exactly the states in the support of the prior. */
  lemma CorrectedPriorRangeIsSupport(s: ChainState, env: Env)
    requires TessShaped(s.q, env.graph.d) && TessShaped(s.m, env.graph.d)
    ensures PriorInRangeCorrected(s, env) <==> InSupport(s, env)
  {
  }

  /** The test as written accepts every state in the support, and so never rejects a state the chain can be in. */
  lemma SupportPassesPriorRange(s: ChainState, env: Env)
    requires TessShaped(s.q, env.graph.d) && TessShaped(s.m, env.graph.d)
    requires InSupport(s, env)
    ensures PriorInRange(s, env)
  {
    var i :| 0 <= i < |s.q.effcts| && MinAbs(s.q.effcts) == Abs(s.q.effcts[i]);
    var j :| 0 <= j < |s.m.effcts| && MinAbs(s.m.effcts) == Abs(s.m.effcts[j]);
  }

  /** ... but it also accepts states outside the support: one effect in range is enough. */
  lemma PriorRangeAdmitsOutOfRangeEffect(env: Env, seed: Point)
    requires env.geo.inHabitat(seed) && env.params.qEffctHalfInterval == 1.0
    requires env.params.mEffctHalfInterval == 1.0 && env.params.mrateMuHalfInterval == 1.0
    ensures var t := Tess(2, [seed, seed], [0.0, 5.0], []);
            var s := ChainState(t, t, 0.0, 1.0, 1.0, [], [], [], [], 0.0, 0.0);
            PriorInRange(s, env) && !PriorInRangeCorrected(s, env)
  {
    var e := [0.0, 5.0];
    assert MinAbs(e) == 0.0 by {
      assert MinAbs(e[1..]) == 5.0;
    }
    assert MaxAbs(e) == 5.0 by {
      assert MaxAbs(e[1..]) == 5.0;
    }
  }

  // ---------------------------------------------------------------------
  // Acceptance

  function Min(a: real, b: real): real {
    if a <= b then a else b
  }

  /**
   * The log acceptance ratio: minus infinity when the staged prior or
   * likelihood is; otherwise the change in log prior and log likelihood,
   * plus the staged log proposal ratio for a birth or a death only.
   */
  function LogRatio(s: ChainState, st: Staged): (r: LogDensity)
    ensures r.Finite? <==> st.pi.Finite? && st.ll.Finite?
  {
    if st.pi.NegInf? then NegInf
    else match st.ll
      case NegInf => NegInf
      case Finite(ll) =>
        var ratioln := st.pi.value - s.pi + ll - s.ll;
        Finite(if IsBirthDeath(st.move) then ratioln + st.ratioln else ratioln)
  }

  /** The acceptance test log(u) < min(0, ratio); a ratio of minus infinity never passes. */
  predicate AcceptTest(logu: real, ratio: LogDensity) {
    ratio.Finite? && logu < Min(0.0, ratio.value)
  }

  /** A proposal whose prior is minus infinity is rejected whatever the uniform. */
  lemma NegInfPriorIsRejected(s: ChainState, st: Staged, logu: real)
    requires st.pi.NegInf?
    ensures !AcceptTest(logu, LogRatio(s, st))
  {
  }

  /** A proposal that does not lower the posterior is accepted whenever log(u) < 0. */
  lemma UphillIsAccepted(s: ChainState, st: Staged, logu: real)
    requires logu < 0.0 && st.pi.Finite? && st.ll.Finite?
    requires st.pi.value + st.ll.value + (if IsBirthDeath(st.move) then st.ratioln else 0.0) >= s.pi + s.ll
    ensures AcceptTest(logu, LogRatio(s, st))
  {
  }

  /** Only a birth or a death has its staged log proposal ratio counted. */
  lemma RatiolnOnlyForBirthDeath(s: ChainState, st: Staged, x: real)
    ensures IsBirthDeath(st.move) || LogRatio(s, st) == LogRatio(s, st.(ratioln := x))
  {
  }

  /**
   * The state after accepting a staged proposal: only the fields of the
   * move's kind are overwritten, and the log prior, log likelihood and
   * trace statistics take the staged values.
   */
  function Accepted(s: ChainState, st: Staged): (t: ChainState)
    requires st.move != UnknownMoveType && st.pi.Finite? && st.ll.Finite?
    ensures t.pi == st.pi.value && t.ll == st.ll.value && t.triDeltaQD == st.triDeltaQD
    ensures t.qrateS2 == s.qrateS2 && t.mrateS2 == s.mrateS2 && t.sigma2 == s.sigma2
    ensures ActsOnQ(st.move) ==> t.m == s.m && t.mrateMu == s.mrateMu && t.B == s.B
    ensures ActsOnM(st.move) ==> t.q == s.q && t.W == s.W
    ensures st.move == MMeanRateUpdate ==> t.m == s.m
    ensures CategoryOf(st.move) == RateUpdate ==>
              t.q.seeds == s.q.seeds && t.q.colors == s.q.colors && t.q.tiles == s.q.tiles &&
              t.m.seeds == s.m.seeds && t.m.colors == s.m.colors && t.m.tiles == s.m.tiles
    ensures CategoryOf(st.move) == PointMove ==>
              t.q.effcts == s.q.effcts && t.q.tiles == s.q.tiles &&
              t.m.effcts == s.m.effcts && t.m.tiles == s.m.tiles
    ensures st.move == QVoronoiRateUpdate ==> t.q.effcts == st.q.effcts && t.W == st.W
    ensures st.move == QVoronoiPointMove ==> t.q.seeds == st.q.seeds && t.q.colors == st.q.colors && t.W == st.W
    ensures st.move == QVoronoiBirthDeath ==> t.q == st.q && t.W == st.W
    ensures st.move == MVoronoiRateUpdate ==> t.m.effcts == st.m.effcts && t.B == st.B
    ensures st.move == MMeanRateUpdate ==> t.mrateMu == st.mrateMu && t.B == st.B
    ensures st.move == MVoronoiPointMove ==> t.m.seeds == st.m.seeds && t.m.colors == st.m.colors && t.B == st.B
    ensures st.move == MVoronoiBirthDeath ==> t.m == st.m && t.B == st.B
  {
    var s1 := match st.move
      case QVoronoiRateUpdate => s.(q := s.q.(effcts := st.q.effcts), W := st.W)
      case QVoronoiPointMove => s.(q := s.q.(seeds := st.q.seeds, colors := st.q.colors), W := st.W)
      case QVoronoiBirthDeath => s.(q := st.q, W := st.W)
      case MVoronoiRateUpdate => s.(m := s.m.(effcts := st.m.effcts), B := st.B)
      case MMeanRateUpdate => s.(mrateMu := st.mrateMu, B := st.B)
      case MVoronoiPointMove => s.(m := s.m.(seeds := st.m.seeds, colors := st.m.colors), B := st.B)
      case MVoronoiBirthDeath => s.(m := st.m, B := st.B);
    s1.(pi := st.pi.value, ll := st.ll.value, triDeltaQD := st.triDeltaQD)
  }

  /** A staged proposal that, if accepted, keeps the chain invariant. */
  ghost predicate Acceptable(s: ChainState, st: Staged, env: Env) {
    && st.move != UnknownMoveType
    && (st.pi.Finite? <==> st.ll.Finite?)
    && (st.pi.Finite? ==> Inv(Accepted(s, st), env))
  }

  // ---------------------------------------------------------------------
  // Staging: what each propose_* leaves in the proposal

  /** The log prior after a rate move replaces an effect cur by e, updated from the current log prior pi. */
  function RateMoveLogPrior(pi: real, cur: real, e: real, rateS2: real): real
    requires rateS2 > 0.0
  {
    pi - (e * e - cur * cur) / (2.0 * rateS2)
  }

  /** propose_rate_one_qtile with tile drawn and new effect e. */
  function StageQRate(s: ChainState, env: Env, prev: Staged, tile: int, e: real): (st: Staged)
    requires WellFormed(s, env) && 0 <= tile < s.q.tiles
    ensures st.move == QVoronoiRateUpdate
    ensures |st.q.effcts| == |s.q.effcts| && st.q.effcts[tile] == e
    ensures forall j :: 0 <= j < |s.q.effcts| && j != tile ==> st.q.effcts[j] == s.q.effcts[j]
    ensures st.pi.Finite? <==> Abs(e) < env.params.qEffctHalfInterval
    ensures st.pi.Finite? ==>
              st.pi.value - s.pi == EffectLogPrior(st.q.effcts, s.qrateS2) - EffectLogPrior(s.q.effcts, s.qrateS2)
  {
    var cur := s.q.effcts[tile];
    var effcts := s.q.effcts[tile := e];
    var st := prev.(move := QVoronoiRateUpdate, q := prev.q.(effcts := effcts));
    if Abs(e) < env.params.qEffctHalfInterval then
      var w := Within(env, s.q.(effcts := effcts));
      var lik := env.geo.wishart(s.B, w, s.sigma2);
      RateUpdatePriorDelta(s.q.effcts, tile, e, s.qrateS2, s.pi);
      st.(pi := Finite(RateMoveLogPrior(s.pi, cur, e, s.qrateS2)), W := w,
          ll := Finite(lik.ll), triDeltaQD := lik.triDeltaQD)
    else
      st.(pi := NegInf, ll := NegInf)
  }

  /** propose_rate_one_mtile with tile drawn and new effect e. */
  function StageMRate(s: ChainState, env: Env, prev: Staged, tile: int, e: real): (st: Staged)
    requires WellFormed(s, env) && 0 <= tile < s.m.tiles
    ensures st.move == MVoronoiRateUpdate
    ensures |st.m.effcts| == |s.m.effcts| && st.m.effcts[tile] == e
    ensures forall j :: 0 <= j < |s.m.effcts| && j != tile ==> st.m.effcts[j] == s.m.effcts[j]
    ensures st.pi.Finite? <==> Abs(e) < env.params.mEffctHalfInterval
    ensures st.pi.Finite? ==>
              st.pi.value - s.pi == EffectLogPrior(st.m.effcts, s.mrateS2) - EffectLogPrior(s.m.effcts, s.mrateS2)
  {
    var cur := s.m.effcts[tile];
    var effcts := s.m.effcts[tile := e];
    var st := prev.(move := MVoronoiRateUpdate, m := prev.m.(effcts := effcts));
    if Abs(e) < env.params.mEffctHalfInterval then
      var b := Between(env, s.m.(effcts := effcts), s.mrateMu);
      var lik := env.geo.wishart(b, s.W, s.sigma2);
      RateUpdatePriorDelta(s.m.effcts, tile, e, s.mrateS2, s.pi);
      st.(pi := Finite(RateMoveLogPrior(s.pi, cur, e, s.mrateS2)), B := b,
          ll := Finite(lik.ll), triDeltaQD := lik.triDeltaQD)
    else
      st.(pi := NegInf, ll := NegInf)
  }

  /** propose_overall_mrate with new mean log migration rate mu. */
  function StageMeanRate(s: ChainState, env: Env, prev: Staged, mu: real): (st: Staged)
    requires WellFormed(s, env)
    ensures st.move == MMeanRateUpdate && st.mrateMu == mu
    ensures st.pi.Finite? <==> Abs(mu) < env.params.mrateMuHalfInterval
    ensures st.pi.Finite? ==> st.pi.value == s.pi
  {
    var st := prev.(move := MMeanRateUpdate, mrateMu := mu);
    if Abs(mu) < env.params.mrateMuHalfInterval then
      var b := Between(env, s.m, mu);
      var lik := env.geo.wishart(b, s.W, s.sigma2);
      st.(pi := Finite(s.pi), B := b, ll := Finite(lik.ll), triDeltaQD := lik.triDeltaQD)
    else
      st.(pi := NegInf, ll := NegInf)
  }

  /** propose_move_one_qtile with tile drawn and new seed pt. */
  function StageQMove(s: ChainState, env: Env, prev: Staged, tile: int, pt: Point): (st: Staged)
    requires WellFormed(s, env) && 0 <= tile < s.q.tiles
    ensures st.move == QVoronoiPointMove
    ensures st.q.seeds == s.q.seeds[tile := pt]
    ensures st.pi.Finite? <==> env.geo.inHabitat(pt)
    ensures st.pi.Finite? ==> st.pi.value == s.pi && st.q.colors == env.geo.closestToDeme(st.q.seeds)
  {
    var seeds := s.q.seeds[tile := pt];
    var st := prev.(move := QVoronoiPointMove, q := prev.q.(seeds := seeds));
    if env.geo.inHabitat(pt) then
      var colors := env.geo.closestToDeme(seeds);
      var w := Within(env, s.q.(colors := colors));
      var lik := env.geo.wishart(s.B, w, s.sigma2);
      st.(q := st.q.(colors := colors), W := w, pi := Finite(s.pi), ll := Finite(lik.ll), triDeltaQD := lik.triDeltaQD)
    else
      st.(pi := NegInf, ll := NegInf)
  }

  /** propose_move_one_mtile with tile drawn and new seed pt. */
  function StageMMove(s: ChainState, env: Env, prev: Staged, tile: int, pt: Point): (st: Staged)
    requires WellFormed(s, env) && 0 <= tile < s.m.tiles
    ensures st.move == MVoronoiPointMove
    ensures st.m.seeds == s.m.seeds[tile := pt]
    ensures st.pi.Finite? <==> env.geo.inHabitat(pt)
    ensures st.pi.Finite? ==> st.pi.value == s.pi && st.m.colors == env.geo.closestToDeme(st.m.seeds)
  {
    var seeds := s.m.seeds[tile := pt];
    var st := prev.(move := MVoronoiPointMove, m := prev.m.(seeds := seeds));
    if env.geo.inHabitat(pt) then
      var colors := env.geo.closestToDeme(seeds);
      var b := Between(env, s.m.(colors := colors), s.mrateMu);
      var lik := env.geo.wishart(b, s.W, s.sigma2);
      st.(m := st.m.(colors := colors), B := b, pi := Finite(s.pi), ll := Finite(lik.ll), triDeltaQD := lik.triDeltaQD)
    else
      st.(pi := NegInf, ll := NegInf)
  }

  /** What a birth or death leaves of one tessellation, with its log prior change and log proposal ratio. */
  datatype Step = Step(tess: Tess, dpi: real, ratioln: real)

  /**
   * The tessellation part of propose_birthdeath_{q,m}Voronoi. With the
   * uniform u a birth or a death is chosen; a birth appends the seed pt with
   * effect e (drawn around the effect of the tile nearest pt), a death
   * removes the tile at index removed, and the demes are recoloured.
   */
  function BirthOrDeath(t: Tess, env: Env, u: real, pt: Point, e: real, removed: int,
                        rateS2: real, proposalS2: real, half: real): (step: Step)
    requires EnvOk(env) && TessShaped(t, env.graph.d)
    requires !ProposesBirth(t.tiles, u) ==> 0 <= removed < t.tiles
    ensures step.tess.tiles == NextTileCount(t.tiles, u)
    ensures |step.tess.seeds| == |step.tess.effcts| == step.tess.tiles
    ensures step.tess.colors == env.geo.closestToDeme(step.tess.seeds)
    ensures ProposesBirth(t.tiles, u) ==> step.tess.seeds == Insert(t.seeds, pt) && step.tess.effcts == Insert(t.effcts, e)
    ensures !ProposesBirth(t.tiles, u) ==>
              step.tess.seeds == RemoveAt(t.seeds, removed) && step.tess.effcts == RemoveAt(t.effcts, removed)
  {
    var g := env.geo;
    var p := env.params;
    if ProposesBirth(t.tiles, u) then
      var r := g.nearest(t.seeds, pt);
      var seeds := Insert(t.seeds, pt);
      var tess := Tess(t.tiles + 1, seeds, Insert(t.effcts, e), g.closestToDeme(seeds));
      Step(tess,
           BirthLogPriorDelta(g, t.tiles, p.negBiSize, p.negBiProb, e, rateS2, half),
           BirthLogProposalRatio(g, t.tiles, e, t.effcts[r], proposalS2, half))
    else
      var seeds := RemoveAt(t.seeds, removed);
      var effcts := RemoveAt(t.effcts, removed);
      var r := g.nearest(seeds, t.seeds[removed]);
      var tess := Tess(t.tiles - 1, seeds, effcts, g.closestToDeme(seeds));
      Step(tess,
           DeathLogPriorDelta(g, t.tiles, p.negBiSize, p.negBiProb, t.effcts[removed], rateS2, half),
           DeathLogProposalRatio(g, t.tiles, t.effcts[removed], effcts[r], proposalS2, half))
  }

  /** The birth branch of BirthOrDeath, with the seed pt and effect e drawn for the new tile. */
  lemma BirthStep(t: Tess, env: Env, u: real, pt: Point, e: real, rateS2: real, proposalS2: real, half: real)
    requires EnvOk(env) && TessShaped(t, env.graph.d) && ProposesBirth(t.tiles, u)
    ensures var g := env.geo;
            var seeds := Insert(t.seeds, pt);
            BirthOrDeath(t, env, u, pt, e, 0, rateS2, proposalS2, half) ==
            Step(Tess(t.tiles + 1, seeds, Insert(t.effcts, e), g.closestToDeme(seeds)),
                 BirthLogPriorDelta(g, t.tiles, env.params.negBiSize, env.params.negBiProb, e, rateS2, half),
                 BirthLogProposalRatio(g, t.tiles, e, t.effcts[g.nearest(t.seeds, pt)], proposalS2, half))
  {
  }

  /** The death branch of BirthOrDeath, removing tile removed. */
  lemma DeathStep(t: Tess, env: Env, u: real, removed: int, rateS2: real, proposalS2: real, half: real)
    requires EnvOk(env) && TessShaped(t, env.graph.d) && !ProposesBirth(t.tiles, u) && 0 <= removed < t.tiles
    ensures var g := env.geo;
            var seeds := RemoveAt(t.seeds, removed);
            var effcts := RemoveAt(t.effcts, removed);
            BirthOrDeath(t, env, u, Point(0.0, 0.0), 0.0, removed, rateS2, proposalS2, half) ==
            Step(Tess(t.tiles - 1, seeds, effcts, g.closestToDeme(seeds)),
                 DeathLogPriorDelta(g, t.tiles, env.params.negBiSize, env.params.negBiProb, t.effcts[removed], rateS2, half),
                 DeathLogProposalRatio(g, t.tiles, t.effcts[removed], effcts[g.nearest(seeds, t.seeds[removed])],
                                       proposalS2, half))
  {
  }

  /** Removing the tile a birth has just added gives back the tessellation the birth started from. */
  lemma DeathUndoesBirthTess(t: Tess, env: Env, pt: Point, e: real, u: real, u': real)
    requires EnvOk(env) && TessShaped(t, env.graph.d) && t.colors == env.geo.closestToDeme(t.seeds)
    requires ProposesBirth(t.tiles, u) && !ProposesBirth(t.tiles + 1, u')
    ensures var born := BirthOrDeath(t, env, u, pt, e, 0, 1.0, 1.0, 1.0).tess;
            TessShaped(born, env.graph.d) &&
            BirthOrDeath(born, env, u', pt, e, t.tiles, 1.0, 1.0, 1.0).tess == t
  {
    var born := BirthOrDeath(t, env, u, pt, e, 0, 1.0, 1.0, 1.0).tess;
    ColouredIsShaped(born, env);
    DeathUndoesBirth(t.seeds, pt);
    DeathUndoesBirth(t.effcts, e);
  }

  /** propose_birthdeath_qVoronoi. */
  function StageQBirthDeath(s: ChainState, env: Env, prev: Staged, u: real, pt: Point, e: real, removed: int): (st: Staged)
    requires WellFormed(s, env)
    requires !ProposesBirth(s.q.tiles, u) ==> 0 <= removed < s.q.tiles
    ensures st.move == QVoronoiBirthDeath && st.pi.Finite? && st.ll.Finite?
    ensures st.q.tiles == NextTileCount(s.q.tiles, u)
    ensures var step := BirthOrDeath(s.q, env, u, pt, e, removed, s.qrateS2,
                                     env.params.qEffctProposalS2, env.params.qEffctHalfInterval);
            st.q == step.tess && st.pi == Finite(s.pi + step.dpi) && st.ratioln == step.ratioln
    ensures st.m == prev.m && st.mrateMu == prev.mrateMu && st.B == prev.B
  {
    var p := env.params;
    var step := BirthOrDeath(s.q, env, u, pt, e, removed, s.qrateS2, p.qEffctProposalS2, p.qEffctHalfInterval);
    ColouredIsShaped(step.tess, env);
    var w := Within(env, step.tess);
    var lik := env.geo.wishart(s.B, w, s.sigma2);
    prev.(move := QVoronoiBirthDeath, q := step.tess, W := w, pi := Finite(s.pi + step.dpi),
          ll := Finite(lik.ll), triDeltaQD := lik.triDeltaQD, ratioln := step.ratioln)
  }

  /** propose_birthdeath_mVoronoi. */
  function StageMBirthDeath(s: ChainState, env: Env, prev: Staged, u: real, pt: Point, e: real, removed: int): (st: Staged)
    requires WellFormed(s, env)
    requires !ProposesBirth(s.m.tiles, u) ==> 0 <= removed < s.m.tiles
    ensures st.move == MVoronoiBirthDeath && st.pi.Finite? && st.ll.Finite?
    ensures st.m.tiles == NextTileCount(s.m.tiles, u)
    ensures var step := BirthOrDeath(s.m, env, u, pt, e, removed, s.mrateS2,
                                     env.params.mEffctProposalS2, env.params.mEffctHalfInterval);
            st.m == step.tess && st.pi == Finite(s.pi + step.dpi) && st.ratioln == step.ratioln
    ensures st.q == prev.q && st.mrateMu == prev.mrateMu && st.W == prev.W
  {
    var p := env.params;
    var step := BirthOrDeath(s.m, env, u, pt, e, removed, s.mrateS2, p.mEffctProposalS2, p.mEffctHalfInterval);
    ColouredIsShaped(step.tess, env);
    var b := Between(env, step.tess, s.mrateMu);
    var lik := env.geo.wishart(b, s.W, s.sigma2);
    prev.(move := MVoronoiBirthDeath, m := step.tess, B := b, pi := Finite(s.pi + step.dpi),
          ll := Finite(lik.ll), triDeltaQD := lik.triDeltaQD, ratioln := step.ratioln)
  }

  // ---------------------------------------------------------------------
  // Every staged proposal, once accepted, keeps the chain invariant

  lemma QRateKeepsInvariant(s: ChainState, env: Env, prev: Staged, tile: int, e: real)
    requires Inv(s, env) && 0 <= tile < s.q.tiles
    ensures Acceptable(s, StageQRate(s, env, prev, tile, e), env)
  {
  }

  lemma MRateKeepsInvariant(s: ChainState, env: Env, prev: Staged, tile: int, e: real)
    requires Inv(s, env) && 0 <= tile < s.m.tiles
    ensures Acceptable(s, StageMRate(s, env, prev, tile, e), env)
  {
  }

  lemma MeanRateKeepsInvariant(s: ChainState, env: Env, prev: Staged, mu: real)
    requires Inv(s, env)
    ensures Acceptable(s, StageMeanRate(s, env, prev, mu), env)
  {
  }

  lemma QMoveKeepsInvariant(s: ChainState, env: Env, prev: Staged, tile: int, pt: Point)
    requires Inv(s, env) && 0 <= tile < s.q.tiles
    ensures Acceptable(s, StageQMove(s, env, prev, tile, pt), env)
  {
  }

  lemma MMoveKeepsInvariant(s: ChainState, env: Env, prev: Staged, tile: int, pt: Point)
    requires Inv(s, env) && 0 <= tile < s.m.tiles
    ensures Acceptable(s, StageMMove(s, env, prev, tile, pt), env)
  {
  }

  /** A birth or a death keeps the tessellation coloured by its seeds and inside the support. */
  lemma BirthOrDeathSupported(t: Tess, env: Env, u: real, pt: Point, e: real, removed: int,
                              rateS2: real, proposalS2: real, half: real)
    requires EnvOk(env) && TessShaped(t, env.graph.d) && TessSupported(t, env.geo, half)
    requires !ProposesBirth(t.tiles, u) ==> 0 <= removed < t.tiles
    requires ProposesBirth(t.tiles, u) ==> env.geo.inHabitat(pt) && Abs(e) <= half
    ensures var step := BirthOrDeath(t, env, u, pt, e, removed, rateS2, proposalS2, half);
            TessShaped(step.tess, env.graph.d) && TessSupported(step.tess, env.geo, half)
  {
    var step := BirthOrDeath(t, env, u, pt, e, removed, rateS2, proposalS2, half);
    ColouredIsShaped(step.tess, env);
    if !ProposesBirth(t.tiles, u) {
      RemoveAtKeeps(t.seeds, removed, env.geo.inHabitat);
      RemoveAtKeeps(t.effcts, removed, x => Abs(x) <= half);
    }
  }

  lemma QBirthDeathKeepsInvariant(s: ChainState, env: Env, prev: Staged, u: real, pt: Point, e: real, removed: int)
    requires Inv(s, env)
    requires !ProposesBirth(s.q.tiles, u) ==> 0 <= removed < s.q.tiles
    requires ProposesBirth(s.q.tiles, u) ==> env.geo.inHabitat(pt) && Abs(e) <= env.params.qEffctHalfInterval
    ensures Acceptable(s, StageQBirthDeath(s, env, prev, u, pt, e, removed), env)
  {
    var p := env.params;
    BirthOrDeathSupported(s.q, env, u, pt, e, removed, s.qrateS2, p.qEffctProposalS2, p.qEffctHalfInterval);
  }

  lemma MBirthDeathKeepsInvariant(s: ChainState, env: Env, prev: Staged, u: real, pt: Point, e: real, removed: int)
    requires Inv(s, env)
    requires !ProposesBirth(s.m.tiles, u) ==> 0 <= removed < s.m.tiles
    requires ProposesBirth(s.m.tiles, u) ==> env.geo.inHabitat(pt) && Abs(e) <= env.params.mEffctHalfInterval
    ensures Acceptable(s, StageMBirthDeath(s, env, prev, u, pt, e, removed), env)
  {
    var p := env.params;
    BirthOrDeathSupported(s.m, env, u, pt, e, removed, s.mrateS2, p.mEffctProposalS2, p.mEffctHalfInterval);
  }
}
