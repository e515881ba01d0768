# SEIR sampling model in Dafny

This project models the deterministic core of `SamplingNInfectiousModel`, an
age-grouped SEIR epidemic model that runs many parameter samples side by side
and refines them by importance resampling against observed case counts. It
models these parts:

- **Classifier** (`classifier.dfy`). The parameter-shape classifier
  `_determine_sample_vars`. Each parameter is sorted by its shape into one of
  three kinds:
  - a scalar;
  - a group vector `(1, G)`;
  - a sample tensor `(S, 1)` or `(S, G)`.

  The classifier infers the number of samples `S`. The `for` loop is a
  `method`, proved equal to a fold (`Classify`).
- **Constructor** (`construction.dfy`). It covers:
  - the derived proportions;
  - the range assertions;
  - the classification of all 22 parameters;
  - the size check on `y0`;
  - the per-sample population `n`;
  - the piecewise infectiousness multiplier `infectious_func`.
- **Right-hand side** (`ode.dfy`). The ODE function `_ode`, over exact reals:
  - every parameter is looked up with numpy broadcasting at cell
    (sample, group);
  - the state is read with the flat layout of `_get_seird_from_flat_y`, 16
    values per cell;
  - the derivative is written with 14 values per cell.
- **Posterior** (`posterior.dfy`). The sample-weighing part of
  `calculate_sir_posterior`:
  - the cumulative detected cases;
  - the per-sample log-likelihood sum of each observed channel, with the
    elementwise log-Poisson term left abstract;
  - the sum over the four channels;
  - the gather of every sample variable at the drawn indices (a `method` with
    a loop).
- **Model object** (`sampling_model.dfy`). The class `Model` holds the fields
  that `solve` and `calculate_sir_posterior` update:
  - the solution cache `_solved`, `_t` and `solution`;
  - `resample_vars`, `log_weights` and `weights`.

`results.dfy` holds `Option` and `Result`. `tensors.dfy` models numpy arrays
as a shape plus row-major data. It also holds broadcasting for rank at most
2, row gathering and sums.

## Behaviour as written

The model follows the code. Where the code's behaviour surprises, a lemma
states it:

- **Inconsistent sample counts go unnoticed.** Each sample tensor overwrites
  `nb_samples` before the consistency test. Sample tensors with different
  first axes are therefore accepted, and the last one sets `S`
  (`Classifier.InconsistentCountsAccepted`, `Classifier.ClassifyNbSamples`).
- **Group vectors must come first.** A group vector after any sample tensor
  is rejected (`Classifier.GroupAfterSampleRejected`).
- **Only beta is range-checked.** The rate check tests `beta` under every
  beta key, so a failing rate check always names `beta`
  (`Construction.RateErrorNamesBeta`).
- **Proportions must be exactly 1.** The proportion check requires both
  `value <= 1` and `value >= 1`.
  - Both `prop_s_to_h` and `prop_s_to_c = 1 - prop_s_to_h` must pass it.
    Hence the constructor succeeds only when `nb_groups == 0`
    (`Construction.InitOnlyWithoutGroups`).
  - Such inputs do exist (`Construction.InitAcceptsEmptyGroups`).
  - The message of the second test (line 105) says "is smaller than 0",
    which shows that `value >= 0` was meant. The model keeps the code's
    check.
- **The lockdown ramp starts at 3 - 2r.** The ramp `1 - (1-r)/11*(t-11)` is
  `3 - 2r` at day -11 instead of 1, and it equals 1 there only when `r == 1`
  (`Construction.RampOffset`). For `0 <= rel_lockdown_beta <= 1` it
  stays at or above 1 on [-11, 0) (`Construction.RampAboveOneAndFalling`).
  The constructor never checks that range: the rate check on line 102 tests
  `beta` under every key.
- **Strides of 16 and 14.** `y0` and the state use 16 values per cell, while
  the derivative `_ode` returns has 14 values per cell
  (`Ode.DerivativeLayout`).
- **The cache test needs every element to differ.** It recomputes only when
  every time point differs from the cached grid, or every element of `y0`
  differs from the constructor's `y0`.
  - Changing only some time points returns the stale solution
    (`SamplingModel.StaleTimeGrid`).
  - A call without `y0` after a call with another `y0` returns the solution
    from that other state (`SamplingModel.StaleInitialState`).
  - Repeating a request with a `y0` that differs from the constructor's
    recomputes (`SamplingModel.RepeatedRequestRecomputes`).
  - For every model the constructor can build, `nb_groups` is 0 and `y0` is
    empty. The cache test therefore never says "keep"
    (`SamplingModel.CacheNeverHit`).
  - numpy cannot reshape to `(-1, S, 0, 16)`, so for such a model `solve`
    never returns a solution (`SamplingModel.SolveNeverSucceeds`). Hence
    `calculate_sir_posterior` always fails with the solve error.
- **No observations is an error.** With no channel observed, `log_weights`
  is the integer 0, and `log_weights.min()` raises. This is modelled as the
  error `NothingObserved`.

## Model

| member | source | states |
|---|---|---|
| Classifier.DetermineSampleVars | seir/sampling/model.py:372-420 | the loop's result (or the error) is exactly the fold `Classify` of one classification step per parameter |
| Classifier.ClassifyOkIff | seir/sampling/model.py:382-415 | classification succeeds iff every entry is accepted, given the sample count seen before it: rank 0, or a sample tensor `(S,1)`/`(S,G)` with S > 1, or `(1,G)` when no sample tensor came earlier |
| Classifier.RankOneRejected | seir/sampling/model.py:385-391 | any rank-1 parameter makes classification fail |
| Classifier.HighRankRejected | seir/sampling/model.py:414-415 | any parameter of rank above 2 makes classification fail (whichever exception is raised) |
| Classifier.GroupAfterSampleRejected | seir/sampling/model.py:395-404 | a `(1,G)` group vector after any sample tensor makes classification fail |
| Classifier.ClassifyErrorNamesFirstRejected | seir/sampling/model.py:382-415 | a failure names the first entry that is not accepted, and every entry before it is accepted |
| Classifier.ClassifyBuckets | seir/sampling/model.py:382-413 | on success the scalar, group and sample buckets are the entries of each kind in dictionary order, unchanged, and together they are a permutation of the input |
| Classifier.ClassifyNbSamples | seir/sampling/model.py:396-420 | nb_samples is 1 when no entry has a first axis above 1, and otherwise the first axis of the last such entry |
| Classifier.InconsistentCountsAccepted | seir/sampling/model.py:396-404 | sample tensors with 2 and 3 rows are both accepted, and nb_samples is 3 |
| Classifier.Filter | seir/sampling/model.py:382-413 | a bucket holds only input entries of its kind |
| Classifier.FilterDistinct | seir/sampling/model.py:382-413 | a bucket of a dictionary has distinct keys |
| Construction.PropSElements | seir/sampling/model.py:63 | element k of prop_s is 1 minus the element of prop_as that broadcasting puts at k minus the element of prop_m put there; for operands of rank at most 2, prop_s has the larger rank and the broadcast length on each axis |
| Construction.PropSToCElements | seir/sampling/model.py:64 | prop_s_to_c is elementwise 1 - prop_s_to_h, with its shape |
| Construction.PropHToRElements | seir/sampling/model.py:65 | element k of prop_h_to_r is 1 minus the element of prop_h_to_c that broadcasting puts at k minus the element of prop_h_to_d put there; for operands of rank at most 2, prop_h_to_r has the larger rank and the broadcast length on each axis |
| Construction.DeriveProportionsDefined | seir/sampling/model.py:63-65 | for operands of rank at most 2, the derived proportions exist exactly when each axis of each pair broadcasts |
| Tensors.SubAt | seir/sampling/model.py:63 | element k of a broadcast difference is a's element at its broadcast source index minus b's element at its source index |
| Tensors.SubShape | seir/sampling/model.py:63 | for rank at most 2, `a - b` is defined exactly when each axis broadcasts, with the larger rank and the broadcast length on each axis |
| Construction.RateCheckPasses | seir/sampling/model.py:101-102 | the rate loop passes iff beta is non-negative (it tests beta under every key), and it fails naming the first beta key |
| Construction.ProportionCheckPasses | seir/sampling/model.py:103-105 | the proportion loop passes iff every proportion is exactly 1 (both `<= 1` and `>= 1`), and it fails with a proportion error |
| Construction.TimeCheckPasses | seir/sampling/model.py:106-107 | the time loop passes iff every time is non-negative |
| Construction.CheckRangesPass | seir/sampling/model.py:101-107 | all range assertions pass iff beta >= 0, every proportion (the derived ones included) is 1, and every time is >= 0; a rate failure names beta |
| Construction.InitOkIff | seir/sampling/model.py:63-130 | the constructor succeeds iff the proportions broadcast, the range checks pass, every parameter is accepted by the classifier, and y0 has 16 * G * S values |
| Construction.InitFields | seir/sampling/model.py:114-130 | a constructed model holds its inputs, the derived proportions, the classification of all 22 parameters in order, and n with one total per sample that together add up to the sum of y0 |
| Construction.InitOnlyWithoutGroups | seir/sampling/model.py:64-118 | as written, the constructor succeeds only with nb_groups == 0 |
| Construction.InitAcceptsEmptyGroups | seir/sampling/model.py:63-130 | a concrete input with nb_groups == 0 is accepted |
| Construction.RateErrorNamesBeta | seir/sampling/model.py:101-102 | a rate error always names `beta` and means beta has a negative element |
| Construction.VarsDistinct | seir/sampling/model.py:69-98 | the 22 parameter names are distinct |
| Construction.InitSampleVars | seir/sampling/model.py:114-118 | the sample variables of a constructed model have distinct keys, and each is a matrix with more than one row |
| Construction.Population | seir/sampling/model.py:130 | n has one value per sample |
| Construction.PopulationBlock | seir/sampling/model.py:130 | n[i] is the sum of the i-th block of G * 16 values of y0 |
| Construction.PopulationTotal | seir/sampling/model.py:130 | the per-sample populations add up to the sum of y0 |
| Construction.InfectiousFuncPointwise | seir/sampling/model.py:133-141 | the array multiplier is 1 before day -11, agrees elementwise with the scalar multiplier on the ramp and plateaus, and takes the shape of the parameter in force |
| Construction.LinearRamp | seir/sampling/model.py:137 | the intended straight line is 1 at day -11 and rel_lockdown_beta at day 0 |
| Construction.MultiplierPlateaus | seir/sampling/model.py:134-141 | 1 before day -11, rel_lockdown_beta on [0, 35), rel_postlockdown_beta from day 35 |
| Construction.RampOffset | seir/sampling/model.py:136-137 | on [-11, 0) the written ramp is the straight line plus 2(1 - r); at day -11 it is 3 - 2r, which is 1 only when r == 1 |
| Construction.RampAboveOneAndFalling | seir/sampling/model.py:136-137 | for r in [0, 1] the ramp falls with t and stays between 1 and 3 - 2r |
| Construction.MultiplierNonNegative | seir/sampling/model.py:133-141 | the multiplier is non-negative when both relative betas are in range |
| Ode.ToSeq | seir/sampling/model.py:352-369 | a cell's 14 compartments in layout order |
| Ode.CellAt | seir/sampling/model.py:352-369 | cell c is read from positions 16c .. 16c + 13 of the flat state |
| Ode.TotalIsSum | seir/sampling/model.py:216-231 | a cell's total is the sum of its 14 compartments |
| Ode.RatesGridAt | seir/sampling/model.py:216-231 | the rates of cell i * G + g are the broadcast parameter values at (i, g) |
| Ode.Derivative | seir/sampling/model.py:233-248 | the derivative has 14 values per cell |
| Ode.DerivativeLayout | seir/sampling/model.py:233-248 | value 14(iG + g) + k of the derivative is compartment k of cell (i, g)'s derivative, computed from that cell's state and its sample's infection pressure |
| Ode.CellConservation | seir/sampling/model.py:216-231 | the 14 derivatives of every cell sum to zero |
| Ode.SampleConservation | seir/sampling/model.py:216-248 | within every sample, the derivatives over all groups and compartments sum to zero |
| Ode.DerivativeSumZero | seir/sampling/model.py:216-248 | the whole derivative sums to zero |
| Ode.PressureNonNegative | seir/sampling/model.py:216-217 | the cross-group infection sum is non-negative for a non-negative state and parameters |
| Ode.FlowSigns | seir/sampling/model.py:216-231 | with a non-negative state, positive times and proportions in [0, 1], ds <= 0 and the recovered and dead derivatives are >= 0 |
| Ode.SusceptibleNonIncreasing | seir/sampling/model.py:216 | the susceptible derivative of every cell in the flat output is <= 0 under those conditions |
| Ode.SamplesIndependent | seir/sampling/model.py:205-248 | the derivative of a sample depends only on that sample's own state |
| Posterior.DetectedAllRatiosOne | seir/sampling/model.py:314-315 | with every ratio 1, the detected count is everyone who has left S and E |
| Posterior.DetectedMonotone | seir/sampling/model.py:314-315 | with a non-negative cell and ratios, the detected count is non-negative and grows with each ratio |
| Posterior.LogPoisson | seir/sampling/model.py:441-444 | the channel log-likelihood exists iff the observation length broadcasts against the time axis, and gives one value per sample |
| Posterior.LogPoissonConcat | seir/sampling/model.py:441-444 | the log-likelihood of two consecutive time windows is the sum of the two |
| Posterior.LogPoissonPerSample | seir/sampling/model.py:441-444 | a sample's log-likelihood depends only on that sample's trajectory |
| Posterior.LogWeightsSum | seir/sampling/model.py:320-325 | the log weights exist iff every observed channel broadcasts; they are the integer 0 iff nothing is observed; otherwise each sample's log weight is the sum of the observed channels, absent channels counting 0 |
| Posterior.ResampleVars | seir/sampling/model.py:342-346 | succeeds iff every variable has a row for every drawn index; then it maps exactly the sample keys to their rows at the drawn indices, otherwise it names the first variable that lacks one |
| Posterior.ResampledRows | seir/sampling/model.py:345 | a resampled variable has m rows, and row j is row idx[j] of the original |
| SamplingModel.ClipSolution | seir/sampling/model.py:255-262 | clipping keeps the shape, leaves no negative value, and leaves non-negative values alone |
| SamplingModel.ClipIdempotent | seir/sampling/model.py:255-262 | clipping a non-negative solution changes nothing, so clipping twice is clipping once |
| SamplingModel.Integrate | seir/sampling/model.py:255-262 | integration fails exactly when S * G is 0 or some row of the integrator's output does not hold S * G * 16 values; otherwise the solution has one row of S * G * 16 values per state the integrator returned, and each value is the integrator's value clipped at 0 |
| SamplingModel.AllDiffer | seir/sampling/model.py:261 | `np.all(a != b)` on 1-d arrays: for equal lengths, true iff a[k] != b[k] for every k; against a length-1 array, true iff every element differs from its single element; for other unequal lengths, the broadcast error |
| SamplingModel.AllDifferSelf | seir/sampling/model.py:261 | an array differs everywhere from itself only when it is empty |
| SamplingModel.AllDifferEmpty | seir/sampling/model.py:261 | against an empty array, anything of length at most 1 differs everywhere |
| SamplingModel.NeedsRecompute | seir/sampling/model.py:261 | for equal lengths, recomputes iff every time point differs or every element of y0 differs from the constructor's; a time grid that differs everywhere recomputes whatever y0's length; lengths that do not broadcast raise, the y0 comparison only when the time comparison is false |
| SamplingModel.SolveStep | seir/sampling/model.py:252-267 | a failure leaves the cache as it was; a success leaves it solved and holding the returned solution; consistency of the cache is preserved, so every returned solution is a non-negative trajectory |
| SamplingModel.SolveStepCases | seir/sampling/model.py:252-267 | the first call and every recompute return the fresh integration of the chosen y0 and store t; a cache hit returns the stored solution with no field changed |
| SamplingModel.StaleTimeGrid | seir/sampling/model.py:261 | after a solve over [0, 1], solving over [0, 2] returns the cached solution |
| SamplingModel.StaleInitialState | seir/sampling/model.py:253-261 | solving the same grid again without y0 returns the cached solution from whatever y0 produced it |
| SamplingModel.RepeatedRequestRecomputes | seir/sampling/model.py:261-262 | repeating a request with a y0 that differs everywhere from the constructor's recomputes |
| SamplingModel.CacheNeverHit | seir/sampling/model.py:252-267 | for every constructed model the cache test never says "keep" |
| SamplingModel.SolveNeverSucceeds | seir/sampling/model.py:252-262 | for every constructed model, from any cache its solves can produce, solve returns an error, and no such cache holds a solution |
| SamplingModel.Scaled | seir/sampling/model.py:326 | each scaled log weight times the smoothing factor is the log weight |
| SamplingModel.Weigh | seir/sampling/model.py:320-328 | the weighing returns one log weight per sample |
| SamplingModel.WeighSum | seir/sampling/model.py:320-328 | the samples are weighed iff some channel is observed and every observed channel broadcasts; no observations is the `log_weights.min()` error; each log weight is the sum of the channel log-likelihoods, and the weights are softmax of the log weights over smoothing |
| SamplingModel.RhsConserves | seir/sampling/model.py:205-248 | `_ode` of a constructed model, with infectious_func(t) in place, returns 14 values per cell that sum to zero |
| SamplingModel.Model.constructor | seir/sampling/model.py:12-203 | the model holds the constructor's configuration, unsolved, with the posterior fields unset |
| SamplingModel.Model.Create | seir/sampling/model.py:12-203 | construction fails exactly with the constructor's error, and otherwise gives a fresh, valid, unsolved model |
| SamplingModel.Model.Solve | seir/sampling/model.py:252-267 | the returned solution and the new `_solved`, `_t` and `solution` are those of SolveStep, and the model stays valid |
| SamplingModel.Model.CalculateSirPosterior | seir/sampling/model.py:296-350 | the cache changes as Solve specifies even when a later step fails. On success the log weights, the weights and the resampled variables are those of Weigh and ResampleVars over the solution; each error is distinguished, and after one the posterior fields are unchanged |

## Left out

- `odeint` is not modelled. It is the integrator function held by each
  `Model`, with no property assumed.
- The elementwise log-Poisson term (`np.log`, `gammaln`) and `softmax` are
  abstract function parameters. They are floating-point transcendental
  numerics.
- `np.random.choice` and the rounding of `m` are not modelled. The drawn
  indices are an input, each below nb_samples, and `m` is their count.
- `_log_k_factorial` and `_log_l` are not modelled, because nothing in the
  core calls them.
- Logging, the unused pandas import and the unused `dim_dict` loop are not
  modelled. None of them affects any result.
- The `imported_func` check and default are not modelled, because `_ode`
  never reads it.
- Floating point is not modelled. All values are exact reals.
- Every division in `_ode` is a precondition (`Ode.WellFormed`), not IEEE
  infinity or NaN. The division by `smoothing` is likewise a precondition
  (`smoothing != 0`).
- `f_hosp_icu_prop` and `f_icu_d_prop` are explicit parameters of
  `SamplingModel.OdeParamsAt`, because the constructor never assigns them.
- When two arrays are broadcast and one has rank above 2, the model reports
  a broadcast error instead of broadcasting. The classifier rejects such a
  parameter later in any case, so only the kind of error differs.
- numpy arrays are modelled by shape and data. Parameters of `None` type are
  not modelled.
- `_get_seird_from_flat_y`'s reshape of a state of the wrong size is outside
  `Ode.WellFormed`.
- SamplingModel.Integrate: the reshape to (-1, S, G, 16) is modelled as
  succeeding only when S * G > 0 and every row returned by the integrator
  has S * G * 16 values. A row count that numpy could re-chunk is treated as
  a failure.
- Ode.OdeRhs requires `Ode.Fits`: each parameter's first axis is 1 or
  nb_samples and its last axis 1 or nb_groups. Because the last sample
  tensor sets nb_samples, the constructor accepts a parameter whose first
  axis is neither. `_ode` then raises numpy's broadcast ValueError, and that
  error is not modelled; SamplingModel.RhsConserves has the same
  precondition.
- SamplingModel.AllDiffer: a comparison of arrays whose lengths do not
  broadcast is modelled as the ValueError that current numpy raises. Older
  numpy versions returned a scalar instead.
- The classifier's `value.ndims` typo raises AttributeError rather than
  ValueError. It is modelled as the failure `TooManyDims`, which carries the
  parameter's key, whereas the AttributeError names no key.
- Observation arrays are taken as one-dimensional integer series, after
  `reshape(-1, 1, 1).astype(int)`.
