/**
 * The sampler object: the current state in fields that the moves update in
 * place, the propose_* and eval_* methods that fill a proposal, the accept
 * step, and the trace that save_iteration extends. The proposal is a plain
 * record owned by the caller's loop, so it is passed in and handed back as a
 * Staged value. Every method is proved against the value-level definitions
 * of the Chain and Trace modules.
 */
module Sampler {
  import opened Numerics
  import opened MoveTypes
  import opened BirthDeath
  import opened Resistance
  import opened Chain
  import opened Trace
  import opened Checkpoint

  class EEMS {
    const params: Params
    const graph: Graph
    const geo: Geometry
    const draw: RandomDraw
    /** The number of loci. */
    const p: nat
    const Bconst: real
    const Wconst: real
    /** The number of iterations the trace keeps. */
    const niters: nat

    var nowqtiles: int
    var nowqSeeds: seq<Point>
    var nowqEffcts: seq<real>
    var nowqColors: seq<int>
    var nowmtiles: int
    var nowmSeeds: seq<Point>
    var nowmEffcts: seq<real>
    var nowmColors: seq<int>
    var nowmrateMu: real
    var nowqrateS2: real
    var nowmrateS2: real
    var nowsigma2: seq<real>
    var nowW: seq<real>
    var nowB: Matrix
    var nowtriDeltaQD: seq<real>
    var nowpi: real
    var nowll: real

    var mcmcqtiles: seq<int>
    var mcmcmtiles: seq<int>
    var mcmcthetas: seq<seq<real>>
    var mcmcqhyper: seq<seq<real>>
    var mcmcmhyper: seq<seq<real>>
    var mcmcpilogl: seq<seq<real>>
    var mcmcqRates: seq<real>
    var mcmcwCoord: seq<real>
    var mcmczCoord: seq<real>
    var mcmcmRates: seq<real>
    var mcmcxCoord: seq<real>
    var mcmcyCoord: seq<real>
    var JtDhatJ: Matrix
    /** The number of iterations saved so far. */
    ghost var saved: nat

    function Setting(): Env {
      Env(params, graph, geo, Bconst, Wconst, p)
    }

    function State(): ChainState
      reads this
    {
      ChainState(Tess(nowqtiles, nowqSeeds, nowqEffcts, nowqColors),
                 Tess(nowmtiles, nowmSeeds, nowmEffcts, nowmColors),
                 nowmrateMu, nowqrateS2, nowmrateS2, nowsigma2, nowW, nowB, nowtriDeltaQD, nowpi, nowll)
    }

    /** The trace tables have one row per kept iteration, and the dissimilarity sum is o-by-o. */
    predicate TraceShaped()
      reads this
    {
      && |mcmcqtiles| == niters && |mcmcmtiles| == niters
      && |mcmcthetas| == niters && |mcmcqhyper| == niters
      && |mcmcmhyper| == niters && |mcmcpilogl| == niters
      && IsSquare(JtDhatJ, graph.o)
    }

    /**
     * Each flat list holds, for every saved iteration in turn, as many entries
     * as that iteration's tile count: the q lists follow mcmcqtiles and the m
     * lists follow mcmcmtiles.
     */
    ghost predicate TraceAligned()
      reads this
    {
      && saved <= niters && |mcmcqtiles| == niters && |mcmcmtiles| == niters
      && Aligned(mcmcqtiles, mcmcqRates, saved)
      && Aligned(mcmcqtiles, mcmcwCoord, saved)
      && Aligned(mcmcqtiles, mcmczCoord, saved)
      && Aligned(mcmcmtiles, mcmcmRates, saved)
      && Aligned(mcmcmtiles, mcmcxCoord, saved)
      && Aligned(mcmcmtiles, mcmcyCoord, saved)
    }

    ghost predicate Valid()
      reads this
    {
      && draw.Valid()
      && HabitatDraws(draw, geo)
      && Inv(State(), Setting())
      && TraceShaped()
      && TraceAligned()
    }

    /** What the propose_* and eval_* methods need: a well-shaped state and a valid generator. */
    ghost predicate Shaped()
      reads this
    {
      WellFormed(State(), Setting()) && draw.Valid()
    }

    /**
     * The scale constants of the ploidy, a state the run starts from, and
     * the trace sized for niters kept iterations.
     */
    constructor (params: Params, graph: Graph, geo: Geometry, draw: RandomDraw, p: nat, diploid: bool,
                 niters: nat, s: ChainState)
      requires draw.Valid() && HabitatDraws(draw, geo)
      requires Inv(s, Env(params, graph, geo, PloidyConstants(diploid).0, PloidyConstants(diploid).1, p))
      ensures Valid() && State() == s
      ensures (Bconst, Wconst) == PloidyConstants(diploid)
      ensures this.params == params && this.graph == graph && this.geo == geo && this.draw == draw
      ensures this.p == p && this.niters == niters
      ensures mcmcqtiles == seq(niters, _ => 0) && mcmcmtiles == seq(niters, _ => 0)
      ensures mcmcthetas == seq(niters, _ => seq(p, _ => 0.0))
      ensures mcmcqhyper == seq(niters, _ => [0.0, 0.0]) && mcmcmhyper == seq(niters, _ => [0.0, 0.0])
      ensures mcmcpilogl == seq(niters, _ => [0.0, 0.0])
      ensures mcmcqRates == [] && mcmcwCoord == [] && mcmczCoord == []
      ensures mcmcmRates == [] && mcmcxCoord == [] && mcmcyCoord == []
      ensures JtDhatJ == seq(graph.o, _ => seq(graph.o, _ => 0.0))
      ensures saved == 0
    {
      this.params := params;
      this.graph := graph;
      this.geo := geo;
      this.draw := draw;
      this.p := p;
      var (b, w) := PloidyConstants(diploid);
      Bconst := b;
      Wconst := w;
      this.niters := niters;
      nowqtiles, nowqSeeds, nowqEffcts, nowqColors := s.q.tiles, s.q.seeds, s.q.effcts, s.q.colors;
      nowmtiles, nowmSeeds, nowmEffcts, nowmColors := s.m.tiles, s.m.seeds, s.m.effcts, s.m.colors;
      nowmrateMu, nowqrateS2, nowmrateS2, nowsigma2 := s.mrateMu, s.qrateS2, s.mrateS2, s.sigma2;
      nowW, nowB, nowtriDeltaQD, nowpi, nowll := s.W, s.B, s.triDeltaQD, s.pi, s.ll;
      mcmcqtiles := seq(niters, _ => 0);
      mcmcmtiles := seq(niters, _ => 0);
      mcmcthetas := seq(niters, _ => seq(p, _ => 0.0));
      mcmcqhyper := seq(niters, _ => [0.0, 0.0]);
      mcmcmhyper := seq(niters, _ => [0.0, 0.0]);
      mcmcpilogl := seq(niters, _ => [0.0, 0.0]);
      mcmcqRates, mcmcwCoord, mcmczCoord := [], [], [];
      mcmcmRates, mcmcxCoord, mcmcyCoord := [], [], [];
      saved := 0;
      JtDhatJ := seq(graph.o, _ => seq(graph.o, _ => 0.0));
    }

    /** choose_move_type: two uniforms decide the move. */
    method ChooseMoveType() returns (move: MoveType)
      modifies draw`count
      ensures draw.count == old(draw.count) + 2
      ensures move == MoveFor(draw.uniform(old(draw.count)), draw.uniform(old(draw.count) + 1), params.qVoronoiPr)
    {
      var u1 := draw.Runif();
      var u2 := draw.Runif();
      if u1 < 0.25 {
        if u2 < params.qVoronoiPr {
          move := QVoronoiBirthDeath;
        } else {
          move := MVoronoiBirthDeath;
        }
      } else if u1 < 0.5 {
        if u2 < params.qVoronoiPr {
          move := QVoronoiPointMove;
        } else {
          move := MVoronoiPointMove;
        }
      } else if u1 < 0.75 {
        if u2 < params.qVoronoiPr {
          move := QVoronoiRateUpdate;
        } else {
          move := MVoronoiRateUpdate;
        }
      } else {
        move := MMeanRateUpdate;
      }
    }

    // -------------------------------------------------------------------
    // eval_*: the likelihood of a staged proposal

    method EvalProposalRateOneQtile(proposal: Staged) returns (ll: real, staged: Staged)
      requires Shaped() && |proposal.q.effcts| == nowqtiles
      ensures staged.W == Within(Setting(), State().q.(effcts := proposal.q.effcts))
      ensures geo.wishart(nowB, staged.W, nowsigma2) == Likelihood(ll, staged.triDeltaQD)
      ensures staged == proposal.(W := staged.W, triDeltaQD := staged.triDeltaQD)
    {
      ShapedColours(State().q.(effcts := proposal.q.effcts), graph.d, graph.o);
      var w := CalcWithin(nowqColors, proposal.q.effcts, graph.o, Wconst, geo.pow10);
      var lik := geo.wishart(nowB, w, nowsigma2);
      staged := proposal.(W := w, triDeltaQD := lik.triDeltaQD);
      ll := lik.ll;
    }

    method EvalProposalMoveOneQtile(proposal: Staged) returns (ll: real, staged: Staged)
      requires Shaped() && |proposal.q.seeds| == nowqtiles
      ensures staged.q.colors == geo.closestToDeme(proposal.q.seeds)
      ensures staged.W == Within(Setting(), State().q.(colors := staged.q.colors))
      ensures geo.wishart(nowB, staged.W, nowsigma2) == Likelihood(ll, staged.triDeltaQD)
      ensures staged == proposal.(q := proposal.q.(colors := staged.q.colors), W := staged.W,
                                  triDeltaQD := staged.triDeltaQD)
    {
      var colors := geo.closestToDeme(proposal.q.seeds);
      ShapedColours(State().q.(colors := colors), graph.d, graph.o);
      var w := CalcWithin(colors, nowqEffcts, graph.o, Wconst, geo.pow10);
      var lik := geo.wishart(nowB, w, nowsigma2);
      staged := proposal.(q := proposal.q.(colors := colors), W := w, triDeltaQD := lik.triDeltaQD);
      ll := lik.ll;
    }

    method EvalBirthDeathQVoronoi(proposal: Staged) returns (ll: real, staged: Staged)
      requires EnvOk(Setting()) && proposal.q.tiles >= 1
      requires |proposal.q.seeds| == |proposal.q.effcts| == proposal.q.tiles
      ensures staged.q.colors == geo.closestToDeme(proposal.q.seeds)
      ensures TessShaped(staged.q, graph.d)
      ensures staged.W == Within(Setting(), staged.q)
      ensures geo.wishart(nowB, staged.W, nowsigma2) == Likelihood(ll, staged.triDeltaQD)
      ensures staged == proposal.(q := proposal.q.(colors := staged.q.colors), W := staged.W,
                                  triDeltaQD := staged.triDeltaQD)
    {
      var q := proposal.q.(colors := geo.closestToDeme(proposal.q.seeds));
      ColouredIsShaped(q, Setting());
      ShapedColours(q, graph.d, graph.o);
      var w := CalcWithin(q.colors, q.effcts, graph.o, Wconst, geo.pow10);
      var lik := geo.wishart(nowB, w, nowsigma2);
      staged := proposal.(q := q, W := w, triDeltaQD := lik.triDeltaQD);
      ll := lik.ll;
    }

    method EvalProposalRateOneMtile(proposal: Staged) returns (ll: real, staged: Staged)
      requires Shaped() && |proposal.m.effcts| == nowmtiles
      ensures staged.B == Between(Setting(), State().m.(effcts := proposal.m.effcts), nowmrateMu)
      ensures geo.wishart(staged.B, nowW, nowsigma2) == Likelihood(ll, staged.triDeltaQD)
      ensures staged == proposal.(B := staged.B, triDeltaQD := staged.triDeltaQD)
    {
      ShapedEdges(State().m.(effcts := proposal.m.effcts), graph);
      var b := CalcBetween(graph.edges, nowmColors, proposal.m.effcts, nowmrateMu, geo.pow10, geo.resistance, Bconst);
      var lik := geo.wishart(b, nowW, nowsigma2);
      staged := proposal.(B := b, triDeltaQD := lik.triDeltaQD);
      ll := lik.ll;
    }

    method EvalProposalOverallMrate(proposal: Staged) returns (ll: real, staged: Staged)
      requires Shaped()
      ensures staged.B == Between(Setting(), State().m, proposal.mrateMu)
      ensures geo.wishart(staged.B, nowW, nowsigma2) == Likelihood(ll, staged.triDeltaQD)
      ensures staged == proposal.(B := staged.B, triDeltaQD := staged.triDeltaQD)
    {
      ShapedEdges(State().m, graph);
      var b := CalcBetween(graph.edges, nowmColors, nowmEffcts, proposal.mrateMu, geo.pow10, geo.resistance, Bconst);
      var lik := geo.wishart(b, nowW, nowsigma2);
      staged := proposal.(B := b, triDeltaQD := lik.triDeltaQD);
      ll := lik.ll;
    }

    method EvalProposalMoveOneMtile(proposal: Staged) returns (ll: real, staged: Staged)
      requires Shaped() && |proposal.m.seeds| == nowmtiles
      ensures staged.m.colors == geo.closestToDeme(proposal.m.seeds)
      ensures staged.B == Between(Setting(), State().m.(colors := staged.m.colors), nowmrateMu)
      ensures geo.wishart(staged.B, nowW, nowsigma2) == Likelihood(ll, staged.triDeltaQD)
      ensures staged == proposal.(m := proposal.m.(colors := staged.m.colors), B := staged.B,
                                  triDeltaQD := staged.triDeltaQD)
    {
      var colors := geo.closestToDeme(proposal.m.seeds);
      ShapedEdges(State().m.(colors := colors), graph);
      var b := CalcBetween(graph.edges, colors, nowmEffcts, nowmrateMu, geo.pow10, geo.resistance, Bconst);
      var lik := geo.wishart(b, nowW, nowsigma2);
      staged := proposal.(m := proposal.m.(colors := colors), B := b, triDeltaQD := lik.triDeltaQD);
      ll := lik.ll;
    }

    method EvalBirthDeathMVoronoi(proposal: Staged) returns (ll: real, staged: Staged)
      requires EnvOk(Setting()) && proposal.m.tiles >= 1
      requires |proposal.m.seeds| == |proposal.m.effcts| == proposal.m.tiles
      ensures staged.m.colors == geo.closestToDeme(proposal.m.seeds)
      ensures TessShaped(staged.m, graph.d)
      ensures staged.B == Between(Setting(), staged.m, nowmrateMu)
      ensures geo.wishart(staged.B, nowW, nowsigma2) == Likelihood(ll, staged.triDeltaQD)
      ensures staged == proposal.(m := proposal.m.(colors := staged.m.colors), B := staged.B,
                                  triDeltaQD := staged.triDeltaQD)
    {
      var m := proposal.m.(colors := geo.closestToDeme(proposal.m.seeds));
      ColouredIsShaped(m, Setting());
      ShapedEdges(m, graph);
      var b := CalcBetween(graph.edges, m.colors, m.effcts, nowmrateMu, geo.pow10, geo.resistance, Bconst);
      var lik := geo.wishart(b, nowW, nowsigma2);
      staged := proposal.(m := m, B := b, triDeltaQD := lik.triDeltaQD);
      ll := lik.ll;
    }

    // -------------------------------------------------------------------
    // propose_*: stage one move in the proposal

    method ProposeRateOneQtile(proposal: Staged) returns (staged: Staged)
      requires Shaped()
      modifies draw`count
      ensures var k := old(draw.count);
              var qtile := draw.uniformInt(k, 0, old(nowqtiles) - 1);
              var e := draw.normal(k + 1, old(nowqEffcts[qtile]), params.qEffctProposalS2);
              && draw.count == k + 2
              && staged == StageQRate(old(State()), Setting(), proposal, qtile, e)
    {
      var qtile := draw.RunifInt(0, nowqtiles - 1);
      var curqEffct := nowqEffcts[qtile];
      var newqEffct := draw.Rnorm(curqEffct, params.qEffctProposalS2);
      staged := proposal.(move := QVoronoiRateUpdate, q := proposal.q.(effcts := nowqEffcts[qtile := newqEffct]));
      if Abs(newqEffct) < params.qEffctHalfInterval {
        staged := staged.(pi := Finite(RateMoveLogPrior(nowpi, curqEffct, newqEffct, nowqrateS2)));
        var ll;
        ll, staged := EvalProposalRateOneQtile(staged);
        staged := staged.(ll := Finite(ll));
      } else {
        staged := staged.(pi := NegInf, ll := NegInf);
      }
    }

    method ProposeRateOneMtile(proposal: Staged) returns (staged: Staged)
      requires Shaped()
      modifies draw`count
      ensures var k := old(draw.count);
              var mtile := draw.uniformInt(k, 0, old(nowmtiles) - 1);
              var e := draw.normal(k + 1, old(nowmEffcts[mtile]), params.mEffctProposalS2);
              && draw.count == k + 2
              && staged == StageMRate(old(State()), Setting(), proposal, mtile, e)
    {
      var mtile := draw.RunifInt(0, nowmtiles - 1);
      var curmEffct := nowmEffcts[mtile];
      var newmEffct := draw.Rnorm(curmEffct, params.mEffctProposalS2);
      staged := proposal.(move := MVoronoiRateUpdate, m := proposal.m.(effcts := nowmEffcts[mtile := newmEffct]));
      if Abs(newmEffct) < params.mEffctHalfInterval {
        staged := staged.(pi := Finite(RateMoveLogPrior(nowpi, curmEffct, newmEffct, nowmrateS2)));
        var ll;
        ll, staged := EvalProposalRateOneMtile(staged);
        staged := staged.(ll := Finite(ll));
      } else {
        staged := staged.(pi := NegInf, ll := NegInf);
      }
    }

    method ProposeOverallMrate(proposal: Staged) returns (staged: Staged)
      requires Shaped()
      modifies draw`count
      ensures var k := old(draw.count);
              var mu := draw.normal(k, old(nowmrateMu), params.mrateMuProposalS2);
              && draw.count == k + 1
              && staged == StageMeanRate(old(State()), Setting(), proposal, mu)
    {
      var newmrateMu := draw.Rnorm(nowmrateMu, params.mrateMuProposalS2);
      staged := proposal.(move := MMeanRateUpdate, mrateMu := newmrateMu);
      if Abs(newmrateMu) < params.mrateMuHalfInterval {
        staged := staged.(pi := Finite(nowpi));
        var ll;
        ll, staged := EvalProposalOverallMrate(staged);
        staged := staged.(ll := Finite(ll));
      } else {
        staged := staged.(pi := NegInf, ll := NegInf);
      }
    }

    method ProposeMoveOneQtile(proposal: Staged) returns (staged: Staged)
      requires Shaped()
      modifies draw`count
      ensures var k := old(draw.count);
              var qtile := draw.uniformInt(k, 0, old(nowqtiles) - 1);
              var x := draw.normal(k + 1, old(nowqSeeds[qtile]).x, params.qSeedsProposalS2x);
              var y := draw.normal(k + 2, old(nowqSeeds[qtile]).y, params.qSeedsProposalS2y);
              && draw.count == k + 3
              && staged == StageQMove(old(State()), Setting(), proposal, qtile, Point(x, y))
    {
      var qtile := draw.RunifInt(0, nowqtiles - 1);
      var newqSeedx := draw.Rnorm(nowqSeeds[qtile].x, params.qSeedsProposalS2x);
      var newqSeedy := draw.Rnorm(nowqSeeds[qtile].y, params.qSeedsProposalS2y);
      staged := proposal.(move := QVoronoiPointMove,
                          q := proposal.q.(seeds := nowqSeeds[qtile := Point(newqSeedx, newqSeedy)]));
      if geo.inHabitat(Point(newqSeedx, newqSeedy)) {
        staged := staged.(pi := Finite(nowpi));
        var ll;
        ll, staged := EvalProposalMoveOneQtile(staged);
        staged := staged.(ll := Finite(ll));
      } else {
        staged := staged.(pi := NegInf, ll := NegInf);
      }
    }

    method ProposeMoveOneMtile(proposal: Staged) returns (staged: Staged)
      requires Shaped()
      modifies draw`count
      ensures var k := old(draw.count);
              var mtile := draw.uniformInt(k, 0, old(nowmtiles) - 1);
              var x := draw.normal(k + 1, old(nowmSeeds[mtile]).x, params.mSeedsProposalS2x);
              var y := draw.normal(k + 2, old(nowmSeeds[mtile]).y, params.mSeedsProposalS2y);
              && draw.count == k + 3
              && staged == StageMMove(old(State()), Setting(), proposal, mtile, Point(x, y))
    {
      var mtile := draw.RunifInt(0, nowmtiles - 1);
      var newmSeedx := draw.Rnorm(nowmSeeds[mtile].x, params.mSeedsProposalS2x);
      var newmSeedy := draw.Rnorm(nowmSeeds[mtile].y, params.mSeedsProposalS2y);
      staged := proposal.(move := MVoronoiPointMove,
                          m := proposal.m.(seeds := nowmSeeds[mtile := Point(newmSeedx, newmSeedy)]));
      if geo.inHabitat(Point(newmSeedx, newmSeedy)) {
        staged := staged.(pi := Finite(nowpi));
        var ll;
        ll, staged := EvalProposalMoveOneMtile(staged);
        staged := staged.(ll := Finite(ll));
      } else {
        staged := staged.(pi := NegInf, ll := NegInf);
      }
    }

    /**
     * The common part of propose_birthdeath_qVoronoi and
     * propose_birthdeath_mVoronoi for the tessellation t: draw u; for a birth
     * draw a seed in the habitat and an effect around the effect of the tile
     * nearest to it, for a death draw the tile to remove; return the new
     * tessellation with the change of the log prior and the log proposal
     * ratio. The colouring of the result is recomputed by the eval_* method.
     */
    method ProposeBirthOrDeath(t: Tess, rateS2: real, proposalS2: real, half: real)
      returns (u: real, step: Step, ghost pt: Point, ghost e: real, ghost removed: int)
      requires EnvOk(Setting()) && TessShaped(t, graph.d) && draw.Valid() && half >= 0.0
      modifies draw`count
      ensures var k := old(draw.count);
              && u == draw.uniform(k)
              && (ProposesBirth(t.tiles, u) ==>
                    && draw.count == k + 3 && removed == 0
                    && pt == draw.habitatPoint(k + 1)
                    && e == draw.truncNormal(k + 2, t.effcts[geo.nearest(t.seeds, pt)], proposalS2, half))
              && (!ProposesBirth(t.tiles, u) ==>
                    && draw.count == k + 2 && pt == Point(0.0, 0.0) && e == 0.0
                    && removed == draw.uniformInt(k + 1, 0, t.tiles - 1))
      ensures !ProposesBirth(t.tiles, u) ==> 0 <= removed < t.tiles
      ensures step == BirthOrDeath(t, Setting(), u, pt, e, removed, rateS2, proposalS2, half)
    {
      pt, e, removed := Point(0.0, 0.0), 0.0, 0;
      u := draw.Runif();
      if t.tiles == 1 || u < 0.5 {
        var newSeed := draw.RandPointInHabitat();
        var r := geo.nearest(t.seeds, newSeed);
        var nowEffct := t.effcts[r];
        var newEffct := draw.Rtrnorm(nowEffct, proposalS2, half);
        var seeds := Insert(t.seeds, newSeed);
        var tess := Tess(t.tiles + 1, seeds, Insert(t.effcts, newEffct), geo.closestToDeme(seeds));
        step := Step(tess,
                     BirthLogPriorDelta(geo, t.tiles, params.negBiSize, params.negBiProb, newEffct, rateS2, half),
                     BirthLogProposalRatio(geo, t.tiles, newEffct, nowEffct, proposalS2, half));
        pt, e := newSeed, newEffct;
        BirthStep(t, Setting(), u, pt, e, rateS2, proposalS2, half);
      } else {
        var tileToRemove := draw.RunifInt(0, t.tiles - 1);
        var oldSeed := t.seeds[tileToRemove];
        var seeds := RemoveAt(t.seeds, tileToRemove);
        var effcts := RemoveAt(t.effcts, tileToRemove);
        var r := geo.nearest(seeds, oldSeed);
        var nowEffct := effcts[r];
        var oldEffct := t.effcts[tileToRemove];
        var tess := Tess(t.tiles - 1, seeds, effcts, geo.closestToDeme(seeds));
        step := Step(tess,
                     DeathLogPriorDelta(geo, t.tiles, params.negBiSize, params.negBiProb, oldEffct, rateS2, half),
                     DeathLogProposalRatio(geo, t.tiles, oldEffct, nowEffct, proposalS2, half));
        removed := tileToRemove;
        DeathStep(t, Setting(), u, removed, rateS2, proposalS2, half);
      }
    }

    method ProposeBirthDeathQVoronoi(proposal: Staged)
      returns (staged: Staged, ghost u: real, ghost pt: Point, ghost e: real, ghost removed: int)
      requires Shaped()
      modifies draw`count
      ensures var k := old(draw.count);
              && u == draw.uniform(k)
              && (ProposesBirth(old(nowqtiles), u) ==>
                    && draw.count == k + 3 && removed == 0
                    && pt == draw.habitatPoint(k + 1)
                    && e == draw.truncNormal(k + 2, old(nowqEffcts[geo.nearest(nowqSeeds, pt)]),
                                             params.qEffctProposalS2, params.qEffctHalfInterval))
              && (!ProposesBirth(old(nowqtiles), u) ==>
                    && draw.count == k + 2 && pt == Point(0.0, 0.0) && e == 0.0
                    && removed == draw.uniformInt(k + 1, 0, old(nowqtiles) - 1))
      ensures !ProposesBirth(old(nowqtiles), u) ==> 0 <= removed < old(nowqtiles)
      ensures staged == StageQBirthDeath(old(State()), Setting(), proposal, u, pt, e, removed)
    {
      var s := State();
      var step;
      u, step, pt, e, removed := ProposeBirthOrDeath(s.q, s.qrateS2, params.qEffctProposalS2,
                                                     params.qEffctHalfInterval);
      staged := proposal.(move := QVoronoiBirthDeath,
                          q := proposal.q.(tiles := step.tess.tiles, seeds := step.tess.seeds, effcts := step.tess.effcts),
                          ratioln := step.ratioln, pi := Finite(s.pi + step.dpi));
      var ll;
      ll, staged := EvalBirthDeathQVoronoi(staged);
      staged := staged.(ll := Finite(ll));
    }

    method ProposeBirthDeathMVoronoi(proposal: Staged)
      returns (staged: Staged, ghost u: real, ghost pt: Point, ghost e: real, ghost removed: int)
      requires Shaped()
      modifies draw`count
      ensures var k := old(draw.count);
              && u == draw.uniform(k)
              && (ProposesBirth(old(nowmtiles), u) ==>
                    && draw.count == k + 3 && removed == 0
                    && pt == draw.habitatPoint(k + 1)
                    && e == draw.truncNormal(k + 2, old(nowmEffcts[geo.nearest(nowmSeeds, pt)]),
                                             params.mEffctProposalS2, params.mEffctHalfInterval))
              && (!ProposesBirth(old(nowmtiles), u) ==>
                    && draw.count == k + 2 && pt == Point(0.0, 0.0) && e == 0.0
                    && removed == draw.uniformInt(k + 1, 0, old(nowmtiles) - 1))
      ensures !ProposesBirth(old(nowmtiles), u) ==> 0 <= removed < old(nowmtiles)
      ensures staged == StageMBirthDeath(old(State()), Setting(), proposal, u, pt, e, removed)
    {
      var s := State();
      var step;
      u, step, pt, e, removed := ProposeBirthOrDeath(s.m, s.mrateS2, params.mEffctProposalS2,
                                                     params.mEffctHalfInterval);
      staged := proposal.(move := MVoronoiBirthDeath,
                          m := proposal.m.(tiles := step.tess.tiles, seeds := step.tess.seeds, effcts := step.tess.effcts),
                          ratioln := step.ratioln, pi := Finite(s.pi + step.dpi));
      var ll;
      ll, staged := EvalBirthDeathMVoronoi(staged);
      staged := staged.(ll := Finite(ll));
    }

    // -------------------------------------------------------------------
    // accept_proposal

    /** Make next the current state; the hyperparameters are not touched by a move. */
    method Commit(next: ChainState)
      requires next.qrateS2 == nowqrateS2 && next.mrateS2 == nowmrateS2 && next.sigma2 == nowsigma2
      modifies this`nowqtiles, this`nowqSeeds, this`nowqEffcts, this`nowqColors,
               this`nowmtiles, this`nowmSeeds, this`nowmEffcts, this`nowmColors,
               this`nowmrateMu, this`nowW, this`nowB, this`nowtriDeltaQD, this`nowpi, this`nowll
      ensures State() == next
    {
      SetQTess(next.q);
      SetMTess(next.m);
      CommitFit(next.mrateMu, next.W, next.B, next.pi, next.ll, next.triDeltaQD);
    }

    /** Replace the diversity tessellation. */
    method SetQTess(q: Tess)
      modifies this`nowqtiles, this`nowqSeeds, this`nowqEffcts, this`nowqColors
      ensures nowqtiles == q.tiles && nowqSeeds == q.seeds && nowqEffcts == q.effcts && nowqColors == q.colors
    {
      nowqtiles, nowqSeeds, nowqEffcts, nowqColors := q.tiles, q.seeds, q.effcts, q.colors;
    }

    /** Replace the migration tessellation. */
    method SetMTess(m: Tess)
      modifies this`nowmtiles, this`nowmSeeds, this`nowmEffcts, this`nowmColors
      ensures nowmtiles == m.tiles && nowmSeeds == m.seeds && nowmEffcts == m.effcts && nowmColors == m.colors
    {
      nowmtiles, nowmSeeds, nowmEffcts, nowmColors := m.tiles, m.seeds, m.effcts, m.colors;
    }

    /** Replace the mean log migration rate, the diversities and resistances, and the fit. */
    method CommitFit(mrateMu: real, W: seq<real>, B: Matrix, pi: real, ll: real, triDeltaQD: seq<real>)
      modifies this`nowmrateMu, this`nowW, this`nowB, this`nowpi, this`nowll, this`nowtriDeltaQD
      ensures nowmrateMu == mrateMu && nowW == W && nowB == B
      ensures nowpi == pi && nowll == ll && nowtriDeltaQD == triDeltaQD
    {
      nowmrateMu, nowW, nowB := mrateMu, W, B;
      nowpi, nowll, nowtriDeltaQD := pi, ll, triDeltaQD;
    }

    /**
     * Draw a uniform, reject a proposal with prior minus infinity, otherwise
     * accept with probability min(1, exp(ratio)): on acceptance copy the
     * move's fields into the state, on rejection reset the proposal's prior
     * and likelihood to the current ones.
     */
    method AcceptProposal(proposal: Staged) returns (accepted: bool, staged: Staged)
      requires Inv(State(), Setting()) && draw.Valid() && Acceptable(State(), proposal, Setting())
      modifies draw`count,
               this`nowqtiles, this`nowqSeeds, this`nowqEffcts, this`nowqColors,
               this`nowmtiles, this`nowmSeeds, this`nowmEffcts, this`nowmColors,
               this`nowmrateMu, this`nowW, this`nowB, this`nowtriDeltaQD, this`nowpi, this`nowll
      ensures Inv(State(), Setting())
      ensures draw.count == old(draw.count) + 1
      ensures accepted == AcceptTest(geo.ln(draw.uniform(old(draw.count))), LogRatio(old(State()), proposal))
      ensures accepted ==> State() == Accepted(old(State()), proposal) && staged == proposal
      ensures !accepted ==> State() == old(State()) && staged == proposal.(pi := Finite(nowpi), ll := Finite(nowll))
    {
      ghost var s := State();
      staged := proposal;
      var u := draw.Runif();
      if proposal.pi == NegInf {
        staged := staged.(pi := Finite(nowpi), ll := Finite(nowll));
        return false, staged;
      }
      var ratio: LogDensity;
      match proposal.ll {
        case NegInf =>
          ratio := NegInf;
        case Finite(newll) =>
          var ratioln := proposal.pi.value - nowpi + newll - nowll;
          if proposal.move == QVoronoiBirthDeath || proposal.move == MVoronoiBirthDeath {
            ratioln := ratioln + proposal.ratioln;
          }
          ratio := Finite(ratioln);
      }
      assert ratio == LogRatio(s, proposal);
      if ratio.Finite? && geo.ln(u) < Min(0.0, ratio.value) {
        CopyProposal(proposal);
        accepted := true;
      } else {
        staged := staged.(pi := Finite(nowpi), ll := Finite(nowll));
        accepted := false;
      }
    }

    /** On acceptance, copy the fields the proposal's move changed, and the fit, into the state. */
    method CopyProposal(proposal: Staged)
      requires proposal.move != UnknownMoveType && proposal.pi.Finite? && proposal.ll.Finite?
      modifies this`nowqtiles, this`nowqSeeds, this`nowqEffcts, this`nowqColors,
               this`nowmtiles, this`nowmSeeds, this`nowmEffcts, this`nowmColors,
               this`nowmrateMu, this`nowW, this`nowB, this`nowtriDeltaQD, this`nowpi, this`nowll
      ensures State() == Accepted(old(State()), proposal)
    {
      var next := State();
      match proposal.move {
        case QVoronoiRateUpdate =>
          next := next.(q := next.q.(effcts := proposal.q.effcts), W := proposal.W);
        case QVoronoiPointMove =>
          next := next.(q := next.q.(seeds := proposal.q.seeds, colors := proposal.q.colors), W := proposal.W);
        case QVoronoiBirthDeath =>
          next := next.(q := proposal.q, W := proposal.W);
        case MVoronoiRateUpdate =>
          next := next.(m := next.m.(effcts := proposal.m.effcts), B := proposal.B);
        case MMeanRateUpdate =>
          next := next.(mrateMu := proposal.mrateMu, B := proposal.B);
        case MVoronoiPointMove =>
          next := next.(m := next.m.(seeds := proposal.m.seeds, colors := proposal.m.colors), B := proposal.B);
        case MVoronoiBirthDeath =>
          next := next.(m := proposal.m, B := proposal.B);
      }
      next := next.(pi := proposal.pi.value, ll := proposal.ll.value, triDeltaQD := proposal.triDeltaQD);
      Commit(next);
    }

    // -------------------------------------------------------------------
    // save_iteration

    /**
     * Record the current state as kept iteration iter, the next one to be
     * saved: its rows and tile counts, then, for each of the first nowqtiles
     * diversity tiles and the first nowmtiles migration tiles, one entry on
     * each flat list. The flat lists stay aligned with the tile counts.
     */
    method SaveIteration(iter: nat)
      requires TraceShaped() && TraceAligned() && iter == saved && iter < niters
      requires IsSquare(nowB, graph.o) && |nowW| == graph.o
      requires 0 <= nowqtiles <= |nowqEffcts| && nowqtiles <= |nowqSeeds|
      requires 0 <= nowmtiles <= |nowmEffcts| && nowmtiles <= |nowmSeeds|
      modifies this`mcmcqtiles, this`mcmcmtiles, this`mcmcthetas, this`mcmcqhyper, this`mcmcmhyper,
               this`mcmcpilogl, this`mcmcqRates, this`mcmcwCoord, this`mcmczCoord, this`mcmcmRates,
               this`mcmcxCoord, this`mcmcyCoord, this`JtDhatJ, this`saved
      ensures TraceShaped() && TraceAligned() && saved == old(saved) + 1
      ensures mcmcthetas == SetRow(old(mcmcthetas), iter, nowsigma2)
      ensures mcmcqhyper == SetRow(old(mcmcqhyper), iter, [0.0, nowqrateS2])
      ensures mcmcmhyper == SetRow(old(mcmcmhyper), iter, [nowmrateMu, nowmrateS2])
      ensures mcmcpilogl == SetRow(old(mcmcpilogl), iter, [nowpi, nowll])
      ensures mcmcqtiles == old(mcmcqtiles)[iter := nowqtiles]
      ensures mcmcmtiles == old(mcmcmtiles)[iter := nowmtiles]
      ensures mcmcqRates == old(mcmcqRates) + Rates(nowqEffcts[..nowqtiles], geo.pow10)
      ensures mcmcwCoord == old(mcmcwCoord) + Xs(nowqSeeds[..nowqtiles])
      ensures mcmczCoord == old(mcmczCoord) + Ys(nowqSeeds[..nowqtiles])
      ensures mcmcmRates == old(mcmcmRates) + ShiftedRates(nowmEffcts[..nowmtiles], nowmrateMu, geo.pow10)
      ensures mcmcxCoord == old(mcmcxCoord) + Xs(nowmSeeds[..nowmtiles])
      ensures mcmcyCoord == old(mcmcyCoord) + Ys(nowmSeeds[..nowmtiles])
      ensures JtDhatJ == MatAdd(old(JtDhatJ), ExpectedDissimilarity(nowB, nowW, graph.o), graph.o)
    {
      ghost var qtiles, mtiles := mcmcqtiles, mcmcmtiles;
      ghost var qRates, wCoord, zCoord := mcmcqRates, mcmcwCoord, mcmczCoord;
      ghost var mRates, xCoord, yCoord := mcmcmRates, mcmcxCoord, mcmcyCoord;
      SaveTables(iter);
      SaveLists();
      AddDissimilarity();
      SavingKeepsAligned(qtiles, qRates, iter, Rates(nowqEffcts[..nowqtiles], geo.pow10));
      SavingKeepsAligned(qtiles, wCoord, iter, Xs(nowqSeeds[..nowqtiles]));
      SavingKeepsAligned(qtiles, zCoord, iter, Ys(nowqSeeds[..nowqtiles]));
      SavingKeepsAligned(mtiles, mRates, iter, ShiftedRates(nowmEffcts[..nowmtiles], nowmrateMu, geo.pow10));
      SavingKeepsAligned(mtiles, xCoord, iter, Xs(nowmSeeds[..nowmtiles]));
      SavingKeepsAligned(mtiles, yCoord, iter, Ys(nowmSeeds[..nowmtiles]));
      saved := saved + 1;
    }

    /** The per-iteration rows and tile counts of iteration iter. */
    method SaveTables(iter: nat)
      requires TraceShaped() && iter < niters
      modifies this`mcmcqtiles, this`mcmcmtiles, this`mcmcthetas, this`mcmcqhyper, this`mcmcmhyper, this`mcmcpilogl
      ensures TraceShaped()
      ensures mcmcthetas == SetRow(old(mcmcthetas), iter, nowsigma2)
      ensures mcmcqhyper == SetRow(old(mcmcqhyper), iter, [0.0, nowqrateS2])
      ensures mcmcmhyper == SetRow(old(mcmcmhyper), iter, [nowmrateMu, nowmrateS2])
      ensures mcmcpilogl == SetRow(old(mcmcpilogl), iter, [nowpi, nowll])
      ensures mcmcqtiles == old(mcmcqtiles)[iter := nowqtiles]
      ensures mcmcmtiles == old(mcmcmtiles)[iter := nowmtiles]
    {
      SaveRows(iter);
      SaveTileCounts(iter);
    }

    /** For each of the first nowqtiles and nowmtiles tiles, one entry on each flat list. */
    method SaveLists()
      requires 0 <= nowqtiles <= |nowqEffcts| && nowqtiles <= |nowqSeeds|
      requires 0 <= nowmtiles <= |nowmEffcts| && nowmtiles <= |nowmSeeds|
      modifies this`mcmcqRates, this`mcmcwCoord, this`mcmczCoord, this`mcmcmRates, this`mcmcxCoord, this`mcmcyCoord
      ensures mcmcqRates == old(mcmcqRates) + Rates(nowqEffcts[..nowqtiles], geo.pow10)
      ensures mcmcwCoord == old(mcmcwCoord) + Xs(nowqSeeds[..nowqtiles])
      ensures mcmczCoord == old(mcmczCoord) + Ys(nowqSeeds[..nowqtiles])
      ensures mcmcmRates == old(mcmcmRates) + ShiftedRates(nowmEffcts[..nowmtiles], nowmrateMu, geo.pow10)
      ensures mcmcxCoord == old(mcmcxCoord) + Xs(nowmSeeds[..nowmtiles])
      ensures mcmcyCoord == old(mcmcyCoord) + Ys(nowmSeeds[..nowmtiles])
    {
      SaveQLists();
      SaveMLists();
    }

    /** The per-iteration rows of iteration iter: scale parameters, hyperparameters, log prior and likelihood. */
    method SaveRows(iter: nat)
      requires |mcmcthetas| == |mcmcqhyper| == |mcmcmhyper| == |mcmcpilogl| == niters && iter < niters
      modifies this`mcmcthetas, this`mcmcqhyper, this`mcmcmhyper, this`mcmcpilogl
      ensures mcmcthetas == SetRow(old(mcmcthetas), iter, nowsigma2)
      ensures mcmcqhyper == SetRow(old(mcmcqhyper), iter, [0.0, nowqrateS2])
      ensures mcmcmhyper == SetRow(old(mcmcmhyper), iter, [nowmrateMu, nowmrateS2])
      ensures mcmcpilogl == SetRow(old(mcmcpilogl), iter, [nowpi, nowll])
    {
      mcmcthetas := SetRow(mcmcthetas, iter, nowsigma2);
      mcmcqhyper := SetRow(mcmcqhyper, iter, [0.0, nowqrateS2]);
      mcmcmhyper := SetRow(mcmcmhyper, iter, [nowmrateMu, nowmrateS2]);
      mcmcpilogl := SetRow(mcmcpilogl, iter, [nowpi, nowll]);
    }

    /** The tile counts of iteration iter. */
    method SaveTileCounts(iter: nat)
      requires |mcmcqtiles| == |mcmcmtiles| == niters && iter < niters
      modifies this`mcmcqtiles, this`mcmcmtiles
      ensures mcmcqtiles == old(mcmcqtiles)[iter := nowqtiles]
      ensures mcmcmtiles == old(mcmcmtiles)[iter := nowmtiles]
    {
      mcmcqtiles := mcmcqtiles[iter := nowqtiles];
      mcmcmtiles := mcmcmtiles[iter := nowmtiles];
    }

    /** For each of the first nowqtiles diversity tiles, its rate and its two seed coordinates. */
    method SaveQLists()
      requires 0 <= nowqtiles <= |nowqEffcts| && nowqtiles <= |nowqSeeds|
      modifies this`mcmcqRates, this`mcmcwCoord, this`mcmczCoord
      ensures mcmcqRates == old(mcmcqRates) + Rates(nowqEffcts[..nowqtiles], geo.pow10)
      ensures mcmcwCoord == old(mcmcwCoord) + Xs(nowqSeeds[..nowqtiles])
      ensures mcmczCoord == old(mcmczCoord) + Ys(nowqSeeds[..nowqtiles])
    {
      var qRates := AppendRates(mcmcqRates, nowqEffcts, nowqtiles, geo.pow10);
      var wCoord := AppendXs(mcmcwCoord, nowqSeeds, nowqtiles);
      var zCoord := AppendYs(mcmczCoord, nowqSeeds, nowqtiles);
      mcmcqRates, mcmcwCoord, mcmczCoord := qRates, wCoord, zCoord;
    }

    /** For each of the first nowmtiles migration tiles, its shifted rate and its two seed coordinates. */
    method SaveMLists()
      requires 0 <= nowmtiles <= |nowmEffcts| && nowmtiles <= |nowmSeeds|
      modifies this`mcmcmRates, this`mcmcxCoord, this`mcmcyCoord
      ensures mcmcmRates == old(mcmcmRates) + ShiftedRates(nowmEffcts[..nowmtiles], nowmrateMu, geo.pow10)
      ensures mcmcxCoord == old(mcmcxCoord) + Xs(nowmSeeds[..nowmtiles])
      ensures mcmcyCoord == old(mcmcyCoord) + Ys(nowmSeeds[..nowmtiles])
    {
      var mRates := AppendShiftedRates(mcmcmRates, nowmEffcts, nowmtiles, nowmrateMu, geo.pow10);
      var xCoord := AppendXs(mcmcxCoord, nowmSeeds, nowmtiles);
      var yCoord := AppendYs(mcmcyCoord, nowmSeeds, nowmtiles);
      mcmcmRates, mcmcxCoord, mcmcyCoord := mRates, xCoord, yCoord;
    }

    /** Add the expected dissimilarities of the current state to the running sum. */
    method AddDissimilarity()
      requires IsSquare(JtDhatJ, graph.o) && IsSquare(nowB, graph.o) && |nowW| == graph.o
      modifies this`JtDhatJ
      ensures JtDhatJ == MatAdd(old(JtDhatJ), ExpectedDissimilarity(nowB, nowW, graph.o), graph.o)
    {
      JtDhatJ := MatAdd(JtDhatJ, ExpectedDissimilarity(nowB, nowW, graph.o), graph.o);
    }

    // -------------------------------------------------------------------
    // load_final_state

    /**
     * Take the tile counts, hyperparameters, effects and seeds from a saved
     * checkpoint and recolour the demes, whether or not ShapeError(files, p)
     * holds; W, B, the log prior and the likelihood are left as they were.
     */
    method LoadFinalState(files: Files)
      requires Readable(files)
      modifies this`nowqtiles, this`nowqSeeds, this`nowqEffcts, this`nowqColors,
               this`nowmtiles, this`nowmSeeds, this`nowmEffcts, this`nowmColors,
               this`nowmrateMu, this`nowqrateS2, this`nowmrateS2, this`nowsigma2
      ensures var l := Load(files, geo.closestToDeme);
              && nowqtiles == l.qtiles && nowmtiles == l.mtiles && nowsigma2 == l.sigma2
              && nowqrateS2 == l.qrateS2 && nowmrateMu == l.mrateMu && nowmrateS2 == l.mrateS2
              && nowqEffcts == l.qEffcts && nowmEffcts == l.mEffcts
              && nowqSeeds == l.qSeeds && nowmSeeds == l.mSeeds
              && nowqColors == l.qColors && nowmColors == l.mColors
    {
      var error := false;
      var tempi := files.qtiles;
      if !tempi.Is(1, 1) { error := true; }
      var qtiles := TruncToInt(tempi.cells[0][0]);
      tempi := files.mtiles;
      if !tempi.Is(1, 1) { error := true; }
      var mtiles := TruncToInt(tempi.cells[0][0]);
      tempi := files.thetas;
      if !tempi.Is(p, 1) { error := true; }
      var sigma2 := Column(tempi, 0);
      tempi := files.qhyper;
      if !tempi.Is(1, 1) { error := true; }
      var qrateS2 := tempi.cells[0][0];
      tempi := files.mhyper;
      if !tempi.Is(1, 2) { error := true; }
      var mrateMu := tempi.cells[0][0];
      var mrateS2 := tempi.cells[0][1];
      tempi := files.qeffct;
      if !tempi.Is(qtiles, 1) { error := true; }
      var qEffcts := Column(tempi, 0);
      tempi := files.meffct;
      if !tempi.Is(mtiles, 1) { error := true; }
      var mEffcts := Column(tempi, 0);
      var qSeeds := Points(files.qseeds);
      if !files.qseeds.Is(qtiles, 2) { error := true; }
      var mSeeds := Points(files.mseeds);
      if !files.mseeds.Is(mtiles, 2) { error := true; }
      var mColors := geo.closestToDeme(mSeeds);
      var qColors := geo.closestToDeme(qSeeds);
      SetQTess(Tess(qtiles, qSeeds, qEffcts, qColors));
      SetMTess(Tess(mtiles, mSeeds, mEffcts, mColors));
      SetHyper(mrateMu, qrateS2, mrateS2, sigma2);
    }

    /** Replace the hyperparameters and the per-locus scale parameters. */
    method SetHyper(mrateMu: real, qrateS2: real, mrateS2: real, sigma2: seq<real>)
      modifies this`nowmrateMu, this`nowqrateS2, this`nowmrateS2, this`nowsigma2
      ensures nowmrateMu == mrateMu && nowqrateS2 == qrateS2 && nowmrateS2 == mrateS2 && nowsigma2 == sigma2
    {
      nowmrateMu, nowqrateS2, nowmrateS2, nowsigma2 := mrateMu, qrateS2, mrateS2, sigma2;
    }
  }
}
