# EEMS sampler core in Dafny

EEMS (Estimated Effective Migration Surfaces) fits two Voronoi
tessellations to a habitat graph of demes by reversible-jump MCMC. The
diversity ("q") tessellation gives every deme a within-deme diversity. The
migration ("m") tessellation, shifted by a mean log rate `mrateMu`, gives
every edge a migration rate, from which resistance distances between the
observed demes follow. This project models the discrete skeleton of the
sampler class `EEMS` in `runeems_sats/src/eems.cpp`:

- choosing one of seven move kinds from two uniforms;
- staging a proposal for each kind: a rate update of one tile, a point
  move of one seed, an update of the mean migration rate, and the birth or
  death of a tile with its negative-binomial prior ratio and birth/death
  odds;
- the accept/reject step, which copies into the state only the fields the
  move's kind owns;
- the trace kept by `save_iteration`: per-iteration rows, flat per-tile
  lists, and the running sum of expected dissimilarities;
- the index compaction and contrast matrix of `initialize_diffs`;
- `calc_within`, and the edge-triplet part of `calc_between`;
- the shape checks of `load_final_state`, whose error flag is computed and
  never used.

Floating-point numerics and foreign code are fields of a `Geometry` value
and are never given bodies:

- the habitat's point test;
- nearest-seed colouring and the index of the nearest seed;
- `pow(10, ·)`, `log` and the truncated-normal log density;
- the dense resistance computation (Laplacian, Schur complement, inverse);
- the Wishart pseudo-likelihood.

`Geometry.Valid` states what the sampler relies on from them: colours name
existing tiles, the resistance matrix is o-by-o, and there is one trace
statistic per locus.

The random generator is a `RandomDraw` object. The k-th draw of a run,
whatever its kind, is that kind's function at position k, and every draw
advances one shared counter. The order of draws therefore decides the
trajectory, and every `propose_*` contract states which draws it consumes
and in what order.

Modules and files:

- `numerics.dfy`: `Numerics`, the shared values, `Geometry` and `RandomDraw`.
- `moves.dfy`: `MoveTypes`, the move kinds and `choose_move_type`.
- `birth_death.dfy`: `BirthDeath`, tile-count bookkeeping, the prior and proposal ratios of birth and death, and the list edits.
- `resistance.dfy`: `Resistance`, `calc_within` and the edge triplets of `calc_between`.
- `diffs.dfy`: `Diffs`, the compaction loops and `Li`.
- `chain.dfy`: `Chain`, the state and a staged proposal as values, what each move stages, the acceptance rule, what acceptance installs, and the invariant.
- `trace.dfy`: `Trace`, the loops of `save_iteration` that append the first `nowqtiles` (or `nowmtiles`) entries of each tile list, and the alignment of flat lists with the recorded tile counts.
- `checkpoint.dfy`: `Checkpoint`, what `load_final_state` reads and its shape test.
- `sampler.dfy`: `Sampler`, the class `EEMS` with the `now*` and `mcmc*` fields that the methods update in place, each method proved against the value-level definitions above.

The chain invariant `Chain.Inv` has six parts:

- both tessellations have at least one tile and one seed and one effect per tile;
- every deme is coloured by its nearest seed;
- every seed lies in the habitat and every effect and `mrateMu` lies within its half-interval;
- the cached `W` is that of the current q tessellation;
- the cached `B` is that of the current m tessellation;
- the log-likelihood and trace statistics are those of the current `W`, `B` and `sigma2`.

Every staged proposal that can be accepted keeps the invariant (the
`*KeepsInvariant` lemmas), and `AcceptProposal` preserves it.
The trace carries a second invariant, `Sampler.EEMS.TraceAligned`: each
flat list holds, iteration after saved iteration, as many entries as the
tile count recorded for that iteration, which `SaveIteration` preserves.

## Model

| member | source | states |
|---|---|---|
| MoveTypes.MoveFor | runeems_sats/src/eems.cpp:257-291 | Never the unknown kind. The category is birth/death for u1<0.25, point move for u1<0.5, rate update for u1<0.75, else mean-rate update. Outside the mean-rate case the q variant is chosen exactly when u2<qVoronoiPr. |
| MoveTypes.MeanRateIgnoresSecondDraw | runeems_sats/src/eems.cpp:287-289 | For u1≥0.75 the move is the mean-rate update whatever u2 is. |
| MoveTypes.EveryMoveIsChosen | runeems_sats/src/eems.cpp:265-289 | Each of the seven kinds is chosen by some pair of uniforms in [0,1) when 0<qVoronoiPr<1. |
| Sampler.EEMS.ChooseMoveType | runeems_sats/src/eems.cpp:257-291 | Consumes exactly two uniforms, u1 then u2, and returns MoveFor of them. |
| BirthDeath.NextTileCount | runeems_sats/src/eems.cpp:567-586 | The count moves by exactly ±1 and stays ≥1. It rises exactly when a birth is proposed, and a birth is forced from one tile. |
| BirthDeath.OddsReciprocal | runeems_sats/src/eems.cpp:563-595 | The odds log argument of a birth from k tiles times that of the death from k+1 is 1. This holds with pBirth forced to 1 for a birth from 1 tile and a death from 2 tiles. |
| BirthDeath.PriorArgsReciprocal | runeems_sats/src/eems.cpp:581-598 | (k+negBiSize)/((k+1)/negBiProb) times ((k+1)/negBiProb)/(k+negBiSize) is 1. |
| BirthDeath.BirthDeathTermsCancel | runeems_sats/src/eems.cpp:579-599 | Take a birth from k tiles that adds effect e, and the death from k+1 that removes it again. Their log prior changes sum to 0, and so do their log proposal ratios. |
| BirthDeath.BirthPriorArgMatchesPrior | runeems_sats/src/eems.cpp:309-311 | The incremental birth prior term equals the change of eval_prior's negative-binomial tile-count term from k to k+1. |
| BirthDeath.Insert | runeems_sats/src/eems.cpp:576-577 | A birth appends the new seed or effect after the existing ones and keeps them. |
| BirthDeath.RemoveAt | runeems_sats/src/eems.cpp:589-590 | A death deletes index i: earlier entries stay, later ones shift down by one. |
| BirthDeath.DeathUndoesBirth | runeems_sats/src/eems.cpp:576-590 | Removing the entry a birth just appended gives back the original list. |
| BirthDeath.RemoveAtKeeps | runeems_sats/src/eems.cpp:587-590 | A property held by every tile still holds for every tile after a removal. |
| Chain.SumSqUpdate | runeems_sats/src/eems.cpp:314-315 | Replacing one effect changes squaredNorm by exactly new² − old². |
| Chain.RateUpdatePriorDelta | runeems_sats/src/eems.cpp:479-482 | The incremental newpi of a rate update equals the change of the from-scratch effects term −squaredNorm/(2 rateS2). |
| Chain.MinAbs | runeems_sats/src/eems.cpp:301-302 | cwiseAbs().minCoeff(): a lower bound of every \|effect\|, attained by one of them. |
| Chain.MaxAbs | runeems_sats/src/eems.cpp:301-302 | The corrected maxCoeff: an upper bound of every \|effect\|, attained by one of them. |
| Chain.SupportPassesPriorRange | runeems_sats/src/eems.cpp:294-304 | eval_prior's range test as written passes every state in the prior's support. |
| Chain.PriorRangeAdmitsOutOfRangeEffect | runeems_sats/src/eems.cpp:301-302 | As written the test also passes effects [0, 5] with half-interval 1, which the corrected test rejects. |
| Chain.CorrectedPriorRangeIsSupport | runeems_sats/src/eems.cpp:294-304 | With maxCoeff the range test holds exactly when the state is in the prior's support. |
| Chain.LogRatio | runeems_sats/src/eems.cpp:659-668 | The ratio is finite exactly when the staged prior and likelihood both are. |
| Chain.NegInfPriorIsRejected | runeems_sats/src/eems.cpp:656-663 | A proposal with newpi = −∞ is rejected whatever the uniform. |
| Chain.UphillIsAccepted | runeems_sats/src/eems.cpp:664-669 | A proposal that does not lower the posterior (with newratioln for a birth/death) is accepted whenever log(u) < 0. |
| Chain.RatiolnOnlyForBirthDeath | runeems_sats/src/eems.cpp:664-668 | For any kind other than birth/death, newratioln has no effect on the ratio. |
| Chain.Accepted | runeems_sats/src/eems.cpp:670-713 | Acceptance sets nowpi, nowll and nowtriDeltaQD to the staged values and never changes qrateS2, mrateS2 or sigma2. A q move leaves the m tessellation, mrateMu and B unchanged. An m or mean-rate move leaves the q tessellation and W unchanged. A rate update keeps seeds, colours and tile counts. A point move keeps effects and tile counts. For each kind, the fields the move proposed (effects, seeds and colours, the whole tessellation, or mrateMu, with W or B) take the staged values. |
| Chain.StageQRate | runeems_sats/src/eems.cpp:467-488 | Exactly the chosen effect changes. The prior is finite iff \|e\| < qEffctHalfInterval, and then newpi − nowpi is the change of the effects' log prior. |
| Chain.StageMRate | runeems_sats/src/eems.cpp:489-505 | The same for the migration effects, with mEffctHalfInterval. |
| Chain.StageMeanRate | runeems_sats/src/eems.cpp:506-521 | Stages the drawn mrateMu. The prior is finite iff \|mu\| < mrateMuHalfInterval, and then newpi = nowpi. |
| Chain.StageQMove | runeems_sats/src/eems.cpp:522-540 | Exactly the chosen seed is replaced. The prior is finite iff the point is in the habitat, and then newpi = nowpi and the demes are recoloured from the new seeds. |
| Chain.StageMMove | runeems_sats/src/eems.cpp:541-559 | The same for the migration seeds. |
| Chain.BirthOrDeath | runeems_sats/src/eems.cpp:560-600 | The tile count is NextTileCount. A birth appends the drawn seed and effect, a death removes the drawn index from seeds and effects, and the demes are recoloured. |
| Chain.BirthStep | runeems_sats/src/eems.cpp:568-583 | The birth branch: the new tile's effect is drawn around the effect of the tile nearest the new seed, and the prior and proposal terms are the birth ones. |
| Chain.DeathStep | runeems_sats/src/eems.cpp:584-599 | The death branch: the proposal term uses the effect of the surviving tile nearest the removed seed. |
| Chain.DeathUndoesBirthTess | runeems_sats/src/eems.cpp:568-599 | The death that removes the tile a birth just added gives back the original tessellation, colours included. |
| Chain.StageQBirthDeath | runeems_sats/src/eems.cpp:560-604 | A q birth/death stages the tessellation BirthOrDeath leaves, newpi = nowpi + its prior change, its proposal ratio, finite likelihood and the new tile count; the m side, mrateMu and B are untouched. |
| Chain.StageMBirthDeath | runeems_sats/src/eems.cpp:605-647 | An m birth/death stages the tessellation BirthOrDeath leaves, newpi = nowpi + its prior change, its proposal ratio, finite likelihood and the new tile count; the q side, mrateMu and W are untouched. |
| Chain.ColouredIsShaped | runeems_sats/src/eems.cpp:433-437 | A tessellation coloured by its nearest seeds, with one seed and effect per tile, colours every deme with an existing tile. |
| Chain.QRateKeepsInvariant | runeems_sats/src/eems.cpp:467-488 | Accepting a staged q rate update keeps the chain invariant. |
| Chain.MRateKeepsInvariant | runeems_sats/src/eems.cpp:489-505 | Accepting a staged m rate update keeps the chain invariant. |
| Chain.MeanRateKeepsInvariant | runeems_sats/src/eems.cpp:506-521 | Accepting a staged mean-rate update keeps the chain invariant. |
| Chain.QMoveKeepsInvariant | runeems_sats/src/eems.cpp:522-540 | Accepting a staged q point move keeps the chain invariant. |
| Chain.MMoveKeepsInvariant | runeems_sats/src/eems.cpp:541-559 | Accepting a staged m point move keeps the chain invariant. |
| Chain.BirthOrDeathSupported | runeems_sats/src/eems.cpp:568-590 | With a seed in the habitat and an effect in range, a birth or death keeps the tessellation well shaped and in the support. |
| Chain.QBirthDeathKeepsInvariant | runeems_sats/src/eems.cpp:560-604 | Accepting a staged q birth/death keeps the chain invariant. |
| Chain.MBirthDeathKeepsInvariant | runeems_sats/src/eems.cpp:605-647 | Accepting a staged m birth/death keeps the chain invariant. |
| Resistance.PloidyConstants | runeems_sats/src/eems.cpp:22-26 | (Bconst, Wconst) is (1, 2) for diploid and (0.25, 1) for haploid data: both positive, Wconst = 2 or 4 times Bconst. |
| Resistance.WithinDiversity | runeems_sats/src/eems.cpp:336-345 | One diversity per observed deme. |
| Resistance.SameTileSameDiversity | runeems_sats/src/eems.cpp:340-343 | Demes of the same colour get the same diversity. |
| Resistance.RateUpdateIsLocal | runeems_sats/src/eems.cpp:340-343 | Changing one tile's effect leaves the diversity of every deme of another colour unchanged. |
| Resistance.CalcWithin | runeems_sats/src/eems.cpp:336-345 | The loop fills W(alpha) = 10^(effect of alpha's tile) and scales by Wconst, which is WithinDiversity. |
| Resistance.EdgeTriplets | runeems_sats/src/eems.cpp:359-370 | Two triplets per edge. |
| Resistance.EdgeRateSymmetric | runeems_sats/src/eems.cpp:363-366 | m(alpha,beta) = m(beta,alpha). |
| Resistance.EntryAppend | runeems_sats/src/eems.cpp:371-375 | The assembled entry of a concatenation of triplet lists is the sum of the entries of each, since duplicates are summed. |
| Resistance.EntryOfMirroredPair | runeems_sats/src/eems.cpp:368-369 | The pair (alpha,beta,m), (beta,alpha,m) contributes the same amount at (a,b) and (b,a). |
| Resistance.MigrationMatrixSymmetric | runeems_sats/src/eems.cpp:359-375 | The migration matrix assembled from the edge triplets is symmetric. |
| Resistance.CalcBetween | runeems_sats/src/eems.cpp:346-400 | The edge loop pushes exactly EdgeTriplets, in edge order, and B is the resistance computation applied to them. |
| Diffs.CountObserved | runeems_sats/src/eems.cpp:90 | ni is at most the number of individuals. |
| Diffs.SkipMissing | runeems_sats/src/eems.cpp:97 | The inner while stops at an observed entry, skipping only missing ones, and keeps the remaining count. |
| Diffs.RecordObserved | runeems_sats/src/eems.cpp:96-100 | Recording the found index keeps oi strictly increasing and exactly the observed indices scanned so far. |
| Diffs.CompactObserved | runeems_sats/src/eems.cpp:90-100 | oi is strictly increasing and lists exactly the j with z(j) ≥ 0. zi(k) = z(oi(k)), and both have length ni. |
| Diffs.CountZeroMeansMissing | runeems_sats/src/eems.cpp:90 | A count of zero means every entry is missing. |
| Diffs.SkipEmpty | runeems_sats/src/eems.cpp:124 | The inner while stops at a sampled deme, skipping only empty ones. |
| Diffs.RecordPresent | runeems_sats/src/eems.cpp:123-126 | Recording the found deme keeps si strictly increasing and exactly the sampled demes scanned so far. |
| Diffs.CompactPresent | runeems_sats/src/eems.cpp:119-127 | si is strictly increasing, lists exactly the demes with ci > 0, and has length o0. |
| Diffs.CountZeroMeansEmpty | runeems_sats/src/eems.cpp:121 | A count of zero means no deme has a sample. |
| Diffs.ContrastMatrix | runeems_sats/src/eems.cpp:105-106 | Li is (ni−1)-by-ni. |
| Diffs.ContrastRowApplied | runeems_sats/src/eems.cpp:105-106 | Row r of Li applied to x gives x(r+1) − x(0): −1 in column 0, 1 in column r+1, 0 elsewhere. |
| Diffs.ContrastRowsSumToZero | runeems_sats/src/eems.cpp:105-106 | Every row of Li sums to zero. |
| Diffs.ContrastIgnoresShift | runeems_sats/src/eems.cpp:105-106 | Adding a constant to every individual leaves every contrast unchanged. |
| Trace.Rates | runeems_sats/src/eems.cpp:741-743 | As many rates 10^effect as effects given. |
| Trace.ShiftedRates | runeems_sats/src/eems.cpp:750-752 | As many rates 10^(effect + mrateMu) as effects given. |
| Trace.Xs | runeems_sats/src/eems.cpp:744-746 | As many first coordinates as seeds given. |
| Trace.Ys | runeems_sats/src/eems.cpp:747-749 | As many second coordinates as seeds given. |
| Trace.AppendRates | runeems_sats/src/eems.cpp:741-743 | The push_back loop over the first n tiles (n at most the number of effects) leaves the old list followed by Rates of the first n effects. |
| Trace.AppendShiftedRates | runeems_sats/src/eems.cpp:750-752 | The push_back loop over the first n tiles leaves the old list followed by ShiftedRates of the first n effects. |
| Trace.AppendXs | runeems_sats/src/eems.cpp:744-746 | The push_back loop over the first n tiles leaves the old list followed by Xs of the first n seeds. |
| Trace.AppendYs | runeems_sats/src/eems.cpp:747-749 | The push_back loop over the first n tiles leaves the old list followed by Ys of the first n seeds. |
| Trace.SumOfPrefixes | runeems_sats/src/eems.cpp:739-740 | Recording the tile count of iteration iter leaves earlier counts and adds n to their sum. |
| Trace.SavingKeepsAligned | runeems_sats/src/eems.cpp:739-758 | After saving, the flat list holds exactly one entry per tile of every saved iteration. The block delimited by the recorded counts for iteration iter is exactly what was appended. |
| Trace.SetRow | runeems_sats/src/eems.cpp:732-738 | Row iter is replaced and every other row is unchanged. |
| Trace.ExpectedDissimilarity | runeems_sats/src/eems.cpp:759-764 | The B(a,b) − B(a,a)/2 − B(b,b)/2 + W(a)/2 + W(b)/2 matrix is o-by-o. |
| Trace.DissimilarityDiagonal | runeems_sats/src/eems.cpp:759-764 | Its diagonal is the within-deme diversity W. |
| Trace.DissimilaritySymmetric | runeems_sats/src/eems.cpp:759-764 | A symmetric B gives a symmetric expected dissimilarity. |
| Trace.MatAdd | runeems_sats/src/eems.cpp:765 | Entrywise sum of two o-by-o matrices. |
| Checkpoint.TruncToInt | runeems_sats/src/eems.cpp:196 | Assigning a double to an int rounds toward zero. |
| Checkpoint.Column | runeems_sats/src/eems.cpp:203 | col(c) has one entry per row, the row's c-th cell. |
| Checkpoint.Points | runeems_sats/src/eems.cpp:217-219 | A two-column seeds matrix read row by row as points. |
| Checkpoint.Load | runeems_sats/src/eems.cpp:191-224 | The lengths of what is loaded follow the files' row counts, and both colourings are recomputed from the loaded seeds. |
| Checkpoint.CleanCheckpointIsConsistent | runeems_sats/src/eems.cpp:193-220 | Without a shape error, seeds and effects match the tile counts and there is one sigma2 per locus. |
| Checkpoint.InconsistentLoadIsFlagged | runeems_sats/src/eems.cpp:193-220 | An inconsistent loaded state always comes with the error flag set. |
| Checkpoint.ShapeErrorIsIgnored | runeems_sats/src/eems.cpp:211-213 | With 3 tiles recorded and 2 effects saved, the flag is set and the load still yields 3 tiles with 2 effects. |
| Numerics.RandomDraw.constructor | runeems_sats/src/eems.cpp:12 | The generator starts at draw 0 with the given draw functions. |
| Numerics.RandomDraw.Runif | runeems_sats/src/eems.cpp:258 | The uniform at the current position; one draw consumed. |
| Numerics.RandomDraw.RunifInt | runeems_sats/src/eems.cpp:469 | A uniform integer in [lo, hi]; one draw consumed. |
| Numerics.RandomDraw.Rnorm | runeems_sats/src/eems.cpp:472 | The normal variate at the current position; one draw consumed. |
| Numerics.RandomDraw.Rtrnorm | runeems_sats/src/eems.cpp:575 | A variate within [−bound, bound]; one draw consumed. |
| Numerics.RandomDraw.RandPointInHabitat | runeems_sats/src/eems.cpp:36-48 | A point in the habitat, taken as one draw. |
| Sampler.EEMS.constructor | runeems_sats/src/eems.cpp:4-27 | Sets the ploidy constants and starts from a given state that satisfies the invariant. The trace is sized as start_eems sizes it: zero rows and empty flat lists. |
| Sampler.EEMS.EvalProposalRateOneQtile | runeems_sats/src/eems.cpp:424-427 | Stages W for the new q effects with the current colours. The likelihood is that of the current B, the new W and sigma2. Nothing else in the proposal changes. |
| Sampler.EEMS.EvalProposalMoveOneQtile | runeems_sats/src/eems.cpp:428-432 | Recolours from the new q seeds and stages that colouring's W and its likelihood. |
| Sampler.EEMS.EvalBirthDeathQVoronoi | runeems_sats/src/eems.cpp:433-437 | Recolours the new q tessellation, which comes out well shaped, and stages its W and likelihood. |
| Sampler.EEMS.EvalProposalRateOneMtile | runeems_sats/src/eems.cpp:438-441 | Stages B for the new m effects with the current colours, and the likelihood with the current W. |
| Sampler.EEMS.EvalProposalOverallMrate | runeems_sats/src/eems.cpp:442-445 | Stages B for the new mrateMu, and its likelihood. |
| Sampler.EEMS.EvalProposalMoveOneMtile | runeems_sats/src/eems.cpp:446-450 | Recolours from the new m seeds and stages that colouring's B and its likelihood. |
| Sampler.EEMS.EvalBirthDeathMVoronoi | runeems_sats/src/eems.cpp:451-455 | Recolours the new m tessellation, which comes out well shaped, and stages its B and likelihood. |
| Sampler.EEMS.ProposeRateOneQtile | runeems_sats/src/eems.cpp:467-488 | Draws the tile, then a normal around its effect (two draws), and stages StageQRate of them. |
| Sampler.EEMS.ProposeRateOneMtile | runeems_sats/src/eems.cpp:489-505 | Draws the tile, then a normal around its effect, and stages StageMRate of them. |
| Sampler.EEMS.ProposeOverallMrate | runeems_sats/src/eems.cpp:506-521 | One normal draw around mrateMu, staged by StageMeanRate. |
| Sampler.EEMS.ProposeMoveOneQtile | runeems_sats/src/eems.cpp:522-540 | Draws the tile, then x, then y (three draws), and stages StageQMove of the new point. |
| Sampler.EEMS.ProposeMoveOneMtile | runeems_sats/src/eems.cpp:541-559 | Draws the tile, then x, then y, and stages StageMMove of the new point. |
| Sampler.EEMS.ProposeBirthOrDeath | runeems_sats/src/eems.cpp:560-600 | Draws u first. A birth then draws a habitat point and a truncated normal around the nearest tile's effect. A death draws an index in [0, tiles−1]. The step is BirthOrDeath of these draws. |
| Sampler.EEMS.ProposeBirthDeathQVoronoi | runeems_sats/src/eems.cpp:560-604 | The same draws on the q tessellation, staged by StageQBirthDeath. |
| Sampler.EEMS.ProposeBirthDeathMVoronoi | runeems_sats/src/eems.cpp:605-647 | The same draws on the m tessellation, staged by StageMBirthDeath. |
| Sampler.EEMS.AcceptProposal | runeems_sats/src/eems.cpp:655-720 | Consumes one uniform before any test and accepts exactly when AcceptTest holds of log(u) and LogRatio. On acceptance the state becomes Accepted. On rejection no field changes and the proposal's newpi/newll are reset to nowpi/nowll. The invariant is kept. |
| Sampler.EEMS.CopyProposal | runeems_sats/src/eems.cpp:670-713 | The per-kind copy leaves the state equal to Accepted(old state, proposal). |
| Sampler.EEMS.Commit | runeems_sats/src/eems.cpp:670-713 | The state becomes the given one; the hyperparameters are untouched. |
| Sampler.EEMS.SetQTess | runeems_sats/src/eems.cpp:680-685 | Overwrites the four q tessellation fields. |
| Sampler.EEMS.SetMTess | runeems_sats/src/eems.cpp:700-705 | Overwrites the four m tessellation fields. |
| Sampler.EEMS.CommitFit | runeems_sats/src/eems.cpp:711-713 | Overwrites mrateMu, W, B, pi, ll and triDeltaQD. |
| Sampler.EEMS.SaveIteration | runeems_sats/src/eems.cpp:730-766 | Row iter (the next iteration to save) of the thetas, qhyper (0, qrateS2), mhyper and pilogl tables and the two tile counts are set. The q lists grow by the rates and coordinates of the first nowqtiles tiles and the m lists by those of the first nowmtiles tiles. The flat lists stay aligned with the recorded tile counts over all saved iterations (TraceAligned), one more iteration is saved, and JtDhatJ gains the expected dissimilarity. The trace keeps its shape. |
| Sampler.EEMS.SaveTables | runeems_sats/src/eems.cpp:731-740 | The rows and tile counts of iteration iter. |
| Sampler.EEMS.SaveRows | runeems_sats/src/eems.cpp:732-738 | The thetas, qhyper, mhyper and pilogl rows of iteration iter. |
| Sampler.EEMS.SaveTileCounts | runeems_sats/src/eems.cpp:739-740 | The two tile counts of iteration iter. |
| Sampler.EEMS.SaveLists | runeems_sats/src/eems.cpp:741-758 | The q lists grow by the rate and coordinates of each of the first nowqtiles tiles, the m lists by those of the first nowmtiles tiles. |
| Sampler.EEMS.SaveQLists | runeems_sats/src/eems.cpp:741-749 | The q rate, w and z lists grow by Rates, Xs and Ys of the first nowqtiles effects and seeds. |
| Sampler.EEMS.SaveMLists | runeems_sats/src/eems.cpp:750-758 | The m rate, x and y lists grow by ShiftedRates, Xs and Ys of the first nowmtiles effects and seeds. |
| Sampler.EEMS.AddDissimilarity | runeems_sats/src/eems.cpp:759-765 | JtDhatJ becomes its old value plus ExpectedDissimilarity(B, W). |
| Sampler.EEMS.LoadFinalState | runeems_sats/src/eems.cpp:191-226 | The state takes exactly Load(files) whether or not the shape test fails: tile counts, sigma2, hyperparameters, effects, seeds, and colours recomputed from the seeds. |
| Sampler.EEMS.SetHyper | runeems_sats/src/eems.cpp:203-210 | Overwrites mrateMu, qrateS2, mrateS2 and sigma2. |

## Left out

- `EEMS_wishpdfln`, the dense part of `calc_between` (Laplacian, Schur complement, Cholesky solve, inverse), `pow`, `log` and `dtrnormln` are floating-point numerics over Eigen and boost. They are uninterpreted function-valued fields of `Geometry`, and real arithmetic is exact.
- `eval_prior`'s lgamma and normal-cdf terms are not computed. Only its range test is modelled (`Chain.PriorInRange`), together with its effects term (`Chain.EffectLogPrior`) and tile-count term (`BirthDeath.NegBinLogPrior`, with `lgamma` and `ln` as parameters).
- `eval_likelihood` is the invariant's statement that W, B and the likelihood are those of the current state; it is not a separate method.
- `update_sigma2` and `update_hyperparams` are conjugate inverse-gamma draws with log arithmetic; they are not modelled.
- `test_prior`, `test_likelihood` and `check_ll_computation` are floating-point recomputations with a tolerance; they are not modelled.
- The constructor's file output, `habitat` and `graph` generation, `print_iteration`, `output_current_state` and `output_results` are I/O. `Graph` and `Geometry` are parameters instead.
- `initialize_state` is not modelled (random initial draws and the negative-binomial tile counts): `Sampler.EEMS.constructor` takes a state that satisfies the invariant.
- `start_eems`'s evaluation of the initial prior and likelihood, its scaling of the seed proposal variances by the habitat span, and the MCMC loop that calls the methods are not modelled. The scaled variances are parameters.
- `initialize_diffs` is modelled only in its compaction loops and `Li`. Allele reading, centring and scaling, the dissimilarity matrices, `logdet` terms and the `slice` of `J` are floating-point matrix algebra.
- `randpoint_in_habitat` is a rejection loop over the foreign habitat test. It is taken as one draw (`RandomDraw.RandPointInHabitat`) that lands in the habitat, so the number of uniforms it consumes is not modelled.
- `rnorm_effects` is used only by `initialize_state` and is not modelled.
- `insertRow`/`insertElem` and `removeRow`/`removeElem` are defined in headers that are not part of this model. They are modelled as append (`BirthDeath.Insert`) and delete-at-index (`BirthDeath.RemoveAt`).
- `pairwise_distance(...).minCoeff(&r)` and `graph.index_closest_to_deme` are the foreign `Geometry.nearest` and `Geometry.closestToDeme`.
- `readMatrixXd` is replaced by the already-read tables of `Checkpoint.Files`. `Checkpoint.Readable` requires every cell the loader reads to exist, including a second column in each seeds file; the source reads such cells unchecked.
- Integer widths are unbounded, and the `double` to `int` conversion of the tile counts is modelled as truncation toward zero (`Checkpoint.TruncToInt`).
- The `Proposal` record is a value (`Chain.Staged`) passed to each method and handed back, not an object mutated in place. Aliasing between the proposal and the sampler is not modelled.
- Sampler.EEMS.AcceptProposal: the unknown move kind's `exit(1)` is not modelled. The method requires an `Acceptable` proposal, which excludes the unknown kind.
- Sampler.EEMS.AcceptProposal: keeps `Chain.Inv` of the state, not the trace-shape part of `Valid`, which it does not touch.
- Sampler.EEMS.ProposeRateOneQtile: the propose_* methods state their result as the `Chain.Stage*` function of the draws they consume. That the result is acceptable is stated separately, by the `Chain.*KeepsInvariant` lemmas.
- Sampler.EEMS.SaveIteration: requires only the trace's shape and alignment, an o-by-o B with one W per observed deme, and tile counts no larger than the effect and seed lists (the source's loops would read past the end otherwise), not the whole chain invariant.
- Sampler.EEMS.SaveIteration: the index passed in is required to be the number of iterations saved so far (a ghost counter); `index_saved_iteration` of the MCMC class is not part of this model.
- Diffs.ContrastMatrix: its own contract states only the shape. The entries are stated by `Diffs.ContrastRowApplied`.

## Findings

| source | as written | input that shows it | evidently intended | confidence | as-written member | corrected member |
|---|---|---|---|---|---|---|
| runeems_sats/src/eems.cpp:301-302 | `eval_prior` leaves the support test on the tile effects when `cwiseAbs().minCoeff()` exceeds the half-interval, so only the smallest \|effect\| is tested | q effects [0, 5] with qEffctHalfInterval = 1 pass the test, although 5 is outside the truncated prior's support | `maxCoeff()`: every \|effect\| within the half-interval | not executed | Chain.PriorRangeAdmitsOutOfRangeEffect | Chain.CorrectedPriorRangeIsSupport |
