/**
 * The model object: the `solve` cache of `SamplingNInfectiousModel` and the
 * tail of `calculate_sir_posterior`, which solves, weighs every sample by the
 * observed channels and resamples the sampled parameters.
 *
 * The integrator (scipy's odeint over `_ode`) is a function-valued field, the
 * log-Poisson term and softmax are parameters, and the indices drawn by
 * `np.random.choice` are an input. The cache is modelled as written: a
 * solution is recomputed only when EVERY element of t differs from the cached
 * time grid, or every element of y0 differs from the constructor's y0.
 */
module SamplingModel {
  import opened Results
  import opened Tensors
  import opened Classifier
  import opened Construction
  import Ode
  import opened Posterior

  // ---------------------------------------------------------------------------
  // Clipping

  /** `clip(min=0)` on one value. */
  function Clip(x: real): (r: real)
    ensures r >= 0.0 && r >= x
    ensures x >= 0.0 ==> r == x
  {
    if x < 0.0 then 0.0 else x
  }

  predicate NonNegativeSolution(sol: seq<seq<real>>)
  {
    forall t, j :: 0 <= t < |sol| && 0 <= j < |sol[t]| ==> sol[t][j] >= 0.0
  }

  /**
   * The clipped solution keeps its shape, has no negative value, and leaves
   * every non-negative value where it was.
   */
  function ClipSolution(sol: seq<seq<real>>): (r: seq<seq<real>>)
    ensures |r| == |sol| && forall t :: 0 <= t < |r| ==> |r[t]| == |sol[t]|
    ensures NonNegativeSolution(r)
    ensures forall t, j :: 0 <= t < |sol| && 0 <= j < |sol[t]| && sol[t][j] >= 0.0 ==> r[t][j] == sol[t][j]
  {
    seq(|sol|, t requires 0 <= t < |sol| => seq(|sol[t]|, j requires 0 <= j < |sol[t]| => Clip(sol[t][j])))
  }

  /** Clipping a solution with no negative value changes nothing; so clipping twice is clipping once. */
  lemma ClipIdempotent(sol: seq<seq<real>>)
    ensures NonNegativeSolution(sol) ==> ClipSolution(sol) == sol
    ensures ClipSolution(ClipSolution(sol)) == ClipSolution(sol)
  {
    var c := ClipSolution(sol);
    forall t | 0 <= t < |sol| ensures NonNegativeSolution(sol) ==> c[t] == sol[t] {
      assert |c[t]| == |sol[t]|;
    }
    var cc := ClipSolution(c);
    forall t | 0 <= t < |c| ensures cc[t] == c[t] {
      assert |cc[t]| == |c[t]|;
    }
  }

  // ---------------------------------------------------------------------------
  // Integration

  /** odeint: the solution at every time point of t from initial state y0. */
  type Integrator = (seq<real>, seq<real>) -> seq<seq<real>>

  /** The ValueErrors `solve` can raise. */
  datatype SolveError =
    | ComparisonFailed   // `t != self._t` or `y0 != self.y0` on lengths that do not broadcast
    | ReshapeFailed      // nb_samples * nb_groups is 0, or a row does not hold nb_samples * nb_groups * 16 values

  /**
   * Lines 255 and 262: integrate, reshape to (-1, S, G, 16) and clip at 0.
   * numpy cannot infer the -1 axis when the other axes multiply to 0, so the
   * reshape fails when there are no samples or no groups, and otherwise when a
   * row does not hold S * G * 16 values. On success the result holds, for
   * each state the integrator returned, that state with every value clipped
   * at 0.
   */
  function Integrate(integrate: Integrator, nbSamples: nat, nbGroups: nat, y0: seq<real>, t: seq<real>)
    : (r: Result<seq<seq<real>>, SolveError>)
    ensures r.Ok? <==> nbSamples * nbGroups > 0 && Trajectory(integrate(y0, t), nbSamples, nbGroups)
    ensures r.Ok? ==> Trajectory(r.value, nbSamples, nbGroups) && NonNegativeSolution(r.value)
    ensures r.Ok? ==> |r.value| == |integrate(y0, t)|
    ensures r.Ok? ==> forall i, j :: 0 <= i < |r.value| && 0 <= j < |r.value[i]| ==>
      |r.value[i]| == |integrate(y0, t)[i]| && r.value[i][j] == Clip(integrate(y0, t)[i][j])
    ensures r.Err? ==> r.error == ReshapeFailed
  {
    var raw := integrate(y0, t);
    if nbSamples * nbGroups > 0 && Trajectory(raw, nbSamples, nbGroups) then Ok(ClipSolution(raw))
    else Err(ReshapeFailed)
  }

  // ---------------------------------------------------------------------------
  // The cache test

  /** Whether two 1-d arrays differ at position k of their broadcast. */
  predicate DiffersAt(a: seq<real>, b: seq<real>, k: nat)
  {
    BroadcastIndex(k, |a|) < |a| && BroadcastIndex(k, |b|) < |b|
    && a[BroadcastIndex(k, |a|)] != b[BroadcastIndex(k, |b|)]
  }

  /**
   * `np.all(a != b)`: true when the arrays differ at every position of their
   * broadcast (so true when that broadcast is empty), and None when their
   * lengths do not broadcast.
   */
  function AllDiffer(a: seq<real>, b: seq<real>): (r: Option<bool>)
    ensures r.Some? <==> BroadcastDim(|a|, |b|).Some?
    ensures r.Some? ==> (r.value <==> forall k :: 0 <= k < BroadcastDim(|a|, |b|).value ==> DiffersAt(a, b, k))
    ensures |a| == |b| ==> r == Some(forall k :: 0 <= k < |a| ==> a[k] != b[k])
    ensures |b| == 1 ==> r == Some(forall k :: 0 <= k < |a| ==> a[k] != b[0])
    ensures |a| == 1 ==> r == Some(forall k :: 0 <= k < |b| ==> a[0] != b[k])
    ensures |a| != |b| && |a| != 1 && |b| != 1 ==> r == None
  {
    match BroadcastDim(|a|, |b|)
    case None => None
    case Some(len) =>
      DiffersAtElements(a, b, len);
      Some(forall k :: 0 <= k < len ==> DiffersAt(a, b, k))
  }

  /** Over a broadcast of equal lengths or against a length-1 array, DiffersAt reads the elements directly. */
  lemma DiffersAtElements(a: seq<real>, b: seq<real>, len: nat)
    requires BroadcastDim(|a|, |b|) == Some(len)
    ensures |a| == |b| || |b| == 1 ==> len == |a|
    ensures |a| == 1 ==> len == |b|
    ensures forall k :: 0 <= k < len && |a| == |b| ==> (DiffersAt(a, b, k) <==> a[k] != b[k])
    ensures forall k :: 0 <= k < len && |b| == 1 ==> (DiffersAt(a, b, k) <==> a[k] != b[0])
    ensures forall k :: 0 <= k < len && |a| == 1 ==> (DiffersAt(a, b, k) <==> a[0] != b[k])
  {
  }

  /** An array never differs everywhere from itself, unless it is empty. */
  lemma AllDifferSelf(a: seq<real>)
    ensures AllDiffer(a, a) == Some(|a| == 0)
  {
    if |a| > 0 {
      assert !DiffersAt(a, a, 0);
    }
  }

  /** Against an empty array whatever broadcasts with it differs everywhere. */
  lemma AllDifferEmpty(a: seq<real>)
    ensures AllDiffer(a, []) == (if |a| <= 1 then Some(true) else None)
  {
  }

  /**
   * Line 261, `np.all(t != self._t) or np.all(y0 != self.y0)`: the second
   * comparison is made only when the first is false; a comparison that fails
   * to broadcast raises.
   */
  function NeedsRecompute(t: seq<real>, tCached: seq<real>, y0: seq<real>, initial: seq<real>)
    : (r: Result<bool, SolveError>)
    ensures r == Ok(false) <==> AllDiffer(t, tCached) == Some(false) && AllDiffer(y0, initial) == Some(false)
    ensures r == Ok(true) <==>
      AllDiffer(t, tCached) == Some(true) || (AllDiffer(t, tCached) == Some(false) && AllDiffer(y0, initial) == Some(true))
    ensures r.Err? ==> r.error == ComparisonFailed
    ensures |t| == |tCached| && |y0| == |initial| ==>
      r.Ok? && (r.value <==>
        (forall k :: 0 <= k < |t| ==> t[k] != tCached[k]) || (forall j :: 0 <= j < |y0| ==> y0[j] != initial[j]))
    ensures |t| == |tCached| && (forall k :: 0 <= k < |t| ==> t[k] != tCached[k]) ==> r == Ok(true)
    ensures |t| != |tCached| && |t| != 1 && |tCached| != 1 ==> r == Err(ComparisonFailed)
    ensures (|t| == |tCached| && !(forall k :: 0 <= k < |t| ==> t[k] != tCached[k])
      && |y0| != |initial| && |y0| != 1 && |initial| != 1) ==> r == Err(ComparisonFailed)
  {
    match AllDiffer(t, tCached)
    case None => Err(ComparisonFailed)
    case Some(true) => Ok(true)
    case Some(false) =>
      match AllDiffer(y0, initial)
      case None => Err(ComparisonFailed)
      case Some(b) => Ok(b)
  }

  // ---------------------------------------------------------------------------
  // solve

  /**
   * The cache: `_solved`, `_t` and `solution`, with the initial state the
   * solution was integrated from (which the code does not keep).
   */
  datatype Cache = Cache(solved: bool, t: seq<real>, solution: seq<seq<real>>, origin: seq<real>)

  /** A cached solution is the clipped integration of its origin over its time grid. */
  predicate CacheConsistent(integrate: Integrator, nbSamples: nat, nbGroups: nat, c: Cache)
  {
    c.solved ==> Integrate(integrate, nbSamples, nbGroups, c.origin, c.t) == Ok(c.solution)
  }

  /** The initial state `solve` integrates from: the argument if given, else the constructor's y0. */
  function ChosenY0(initial: seq<real>, y0: Option<seq<real>>): seq<real>
  {
    if y0.Some? then y0.value else initial
  }

  /**
   * Lines 252-267: the returned solution and the cache afterwards. A failure
   * leaves the cache as it was; a success leaves it solved and holding what
   * was returned; and a consistent cache stays consistent, so every returned
   * solution is a non-negative trajectory.
   */
  function SolveStep(integrate: Integrator, nbSamples: nat, nbGroups: nat, initial: seq<real>,
                     c: Cache, t: seq<real>, y0: Option<seq<real>>)
    : (r: (Result<seq<seq<real>>, SolveError>, Cache))
    ensures r.0.Err? ==> r.1 == c
    ensures r.0.Ok? ==> r.1.solved && r.1.solution == r.0.value
    ensures CacheConsistent(integrate, nbSamples, nbGroups, c) ==> CacheConsistent(integrate, nbSamples, nbGroups, r.1)
    ensures CacheConsistent(integrate, nbSamples, nbGroups, c) && r.0.Ok? ==>
      Trajectory(r.0.value, nbSamples, nbGroups) && NonNegativeSolution(r.0.value)
  {
    var y := ChosenY0(initial, y0);
    if !c.solved || NeedsRecompute(t, c.t, y, initial) == Ok(true) then
      match Integrate(integrate, nbSamples, nbGroups, y, t)
      case Err(e) => (Err(e), c)
      case Ok(sol) => (Ok(sol), Cache(true, t, sol, y))
    else if NeedsRecompute(t, c.t, y, initial).Err? then
      (Err(ComparisonFailed), c)
    else
      (Ok(c.solution), c)
  }

  /**
   * When the solver runs (first call, or the cache test asks for it) the
   * answer is the fresh integration of the chosen y0 over t, and on success
   * the cache records t and that y0; otherwise the cached solution comes back
   * unchanged.
   */
  lemma SolveStepCases(integrate: Integrator, nbSamples: nat, nbGroups: nat, initial: seq<real>,
                       c: Cache, t: seq<real>, y0: Option<seq<real>>)
    ensures var y := ChosenY0(initial, y0);
      var r := SolveStep(integrate, nbSamples, nbGroups, initial, c, t, y0);
      if !c.solved || NeedsRecompute(t, c.t, y, initial) == Ok(true) then
        r.0 == Integrate(integrate, nbSamples, nbGroups, y, t)
        && (r.0.Ok? ==> r.1 == Cache(true, t, r.0.value, y))
      else if NeedsRecompute(t, c.t, y, initial) == Ok(false) then
        r == (Ok(c.solution), c)
      else
        r == (Err(ComparisonFailed), c)
  {
  }

  /**
   * Changing only some of the time points keeps the cached solution: with the
   * cache solved over [0, 1], solving over [0, 2] returns the solution over
   * [0, 1].
   */
  lemma StaleTimeGrid(integrate: Integrator, nbSamples: nat, nbGroups: nat, sol: seq<seq<real>>)
    ensures var c := Cache(true, [0.0, 1.0], sol, [1.0]);
      SolveStep(integrate, nbSamples, nbGroups, [1.0], c, [0.0, 2.0], None) == (Ok(sol), c)
  {
    assert !DiffersAt([0.0, 2.0], [0.0, 1.0], 0);
    AllDifferSelf([1.0]);
  }

  /**
   * The y0 test compares with the constructor's y0, not with the state the
   * cache was solved from: solving again over the same non-empty grid without
   * a y0 returns the cached solution unchanged, integrated from whatever state
   * the previous call was given.
   */
  lemma StaleInitialState(integrate: Integrator, nbSamples: nat, nbGroups: nat, initial: seq<real>,
                          c: Cache, t: seq<real>)
    requires CacheConsistent(integrate, nbSamples, nbGroups, c)
    requires c.solved && c.t == t && |t| > 0 && |initial| > 0
    ensures SolveStep(integrate, nbSamples, nbGroups, initial, c, t, None) == (Ok(c.solution), c)
    ensures SolveStep(integrate, nbSamples, nbGroups, initial, c, t, None).0
         == Integrate(integrate, nbSamples, nbGroups, c.origin, t)
  {
    AllDifferSelf(t);
    AllDifferSelf(initial);
  }

  /**
   * Asking twice for the same solution from a y0 that differs everywhere
   * from the constructor's runs the solver again.
   */
  lemma RepeatedRequestRecomputes(integrate: Integrator, nbSamples: nat, nbGroups: nat, initial: seq<real>,
                                  c: Cache, y: seq<real>)
    requires c.solved && |c.t| > 0 && AllDiffer(y, initial) == Some(true)
    ensures SolveStep(integrate, nbSamples, nbGroups, initial, c, c.t, Some(y)).0
         == Integrate(integrate, nbSamples, nbGroups, y, c.t)
  {
    AllDifferSelf(c.t);
  }

  /**
   * A constructed model has no groups, so its y0 is empty and `np.all(y0 !=
   * self.y0)` is never false: the cache is never used.
   */
  lemma CacheNeverHit(inp: Inputs, t: seq<real>, tCached: seq<real>, y: seq<real>)
    requires Init(inp).Ok?
    ensures NeedsRecompute(t, tCached, y, inp.y0) != Ok(false)
  {
    InitOnlyWithoutGroups(inp);
    InitFields(inp);
    assert |inp.y0| == 0;
    AllDifferEmpty(y);
  }

  /**
   * A constructed model has no groups, so the reshape after integration always
   * fails and, starting from any cache its solves can have produced, solve
   * never returns a solution.
   */
  lemma SolveNeverSucceeds(
    inp: Inputs, integrate: Integrator, c: Cache, t: seq<real>, y0: Option<seq<real>>)
    requires Init(inp).Ok?
    requires CacheConsistent(integrate, Init(inp).value.classification.nbSamples, inp.nbGroups, c)
    ensures SolveStep(integrate, Init(inp).value.classification.nbSamples, inp.nbGroups, inp.y0, c, t, y0).0.Err?
    ensures !c.solved
  {
    InitOnlyWithoutGroups(inp);
  }

  // ---------------------------------------------------------------------------
  // Weighing the samples

  /** `log_weights / smoothing`: every value divided by the smoothing factor. */
  function Scaled(v: seq<real>, smoothing: real): (w: seq<real>)
    requires smoothing != 0.0
    ensures |w| == |v| && forall k :: 0 <= k < |v| ==> w[k] * smoothing == v[k]
  {
    seq(|v|, k requires 0 <= k < |v| => v[k] / smoothing)
  }

  /** The errors `calculate_sir_posterior` can raise. */
  datatype PosteriorError =
    | SolveFailed(cause: SolveError)
    | ObservationLength(channel: Channel)   // an observation series that does not broadcast over t
    | NothingObserved                       // `log_weights.min()` on the integer 0 (AttributeError)
    | IndexError(key: string)               // a sample variable with fewer rows than a drawn index

  /** Lines 320-328: the log weights and the softmax weights, or the error raised on the way. */
  function Weigh(term: Term, ob: Observations, sol: seq<seq<real>>, nbSamples: nat, nbGroups: nat,
                 ratios: DetectionRatios, smoothing: real, softmax: seq<real> -> seq<real>)
    : (r: Result<(seq<real>, seq<real>), PosteriorError>)
    requires Trajectory(sol, nbSamples, nbGroups) && smoothing != 0.0
    ensures r.Ok? ==> |r.value.0| == nbSamples
  {
    match LogWeightsOf(term, ob, sol, nbSamples, nbGroups, ratios)
    case Err(ch) => Err(ObservationLength(ch))
    case Ok(NoObservations) => Err(NothingObserved)
    case Ok(PerSample(v)) => Ok((v, softmax(Scaled(v, smoothing))))
  }

  /**
   * The samples are weighed exactly when some channel is observed and every
   * observed channel broadcasts over t; then sample i's log weight is the sum
   * of the channels' log-likelihoods at i, and the weights are softmax of the
   * log weights over the smoothing factor.
   */
  lemma WeighSum(term: Term, ob: Observations, sol: seq<seq<real>>, nbSamples: nat, nbGroups: nat,
                 ratios: DetectionRatios, smoothing: real, softmax: seq<real> -> seq<real>, i: nat)
    requires Trajectory(sol, nbSamples, nbGroups) && smoothing != 0.0 && i < nbSamples
    ensures var r := Weigh(term, ob, sol, nbSamples, nbGroups, ratios, smoothing, softmax);
      var broadcasts := Broadcasts(ob.detected, |sol|) && Broadcasts(ob.hospital, |sol|)
                        && Broadcasts(ob.icu, |sol|) && Broadcasts(ob.dead, |sol|);
      (r.Ok? <==> !Unobserved(ob) && broadcasts)
      && (r == Err(NothingObserved) <==> Unobserved(ob))
      && (r.Err? && r.error.ObservationLength? <==> !broadcasts)
      && (r.Ok? ==>
            |r.value.0| == nbSamples
            && r.value.1 == softmax(Scaled(r.value.0, smoothing))
            && r.value.0[i] == Contribution(term, ob.detected, sol, nbSamples, nbGroups, DetectedCases, ratios, i)
                             + Contribution(term, ob.hospital, sol, nbSamples, nbGroups, Hospital, ratios, i)
                             + Contribution(term, ob.icu, sol, nbSamples, nbGroups, Icu, ratios, i)
                             + Contribution(term, ob.dead, sol, nbSamples, nbGroups, Dead, ratios, i))
  {
    LogWeightsSum(term, ob, sol, nbSamples, nbGroups, ratios, i);
  }

  // ---------------------------------------------------------------------------
  // The right-hand side of a constructed model

  /**
   * The attributes `_ode` reads at time t. The constructor never assigns
   * f_hosp_icu_prop and f_icu_d_prop, so they are parameters here.
   */
  function OdeParamsAt(c: Config, fHospIcuProp: Array, fIcuDProp: Array, t: real): Ode.OdeParams
  {
    var inp := c.inputs;
    Ode.OdeParams(
      c.classification.nbSamples, inp.nbGroups,
      inp.beta, inp.relBetaAs, inp.propAs, inp.propM, inp.propSToH,
      inp.timeIncubate, inp.timeInfectious, inp.timeSToH, inp.timeSToC,
      inp.timeHToC, inp.timeHToR, inp.timeCToR, inp.timeCToD,
      fHospIcuProp, fIcuDProp, InfectiousFunc(t, inp.relLockdownBeta, inp.relPostlockdownBeta), c.n)
  }

  /**
   * `_ode(y, t)` of a constructed model returns 14 derivatives per cell, and
   * they add up to zero: the population of every sample, which the
   * constructor read off y0, is conserved.
   */
  lemma RhsConserves(c: Config, fHospIcuProp: Array, fIcuDProp: Array, t: real, y: seq<real>)
    requires var p := OdeParamsAt(c, fHospIcuProp, fIcuDProp, t);
      Ode.Fits(p) && Ode.WellFormed(p.nbSamples, p.nbGroups, Ode.RatesGrid(p), y)
    ensures var p := OdeParamsAt(c, fHospIcuProp, fIcuDProp, t);
      |Ode.OdeRhs(p, y)| == Ode.NbCompartments * (p.nbSamples * p.nbGroups)
      && Sum(Ode.OdeRhs(p, y)) == 0.0
  {
    var p := OdeParamsAt(c, fHospIcuProp, fIcuDProp, t);
    Ode.DerivativeSumZero(p.nbSamples, p.nbGroups, Ode.RatesGrid(p), y);
  }

  // ---------------------------------------------------------------------------
  // The model object

  class Model {
    /** Everything the constructor computed. */
    const config: Config
    /** odeint over this model's `_ode`. */
    const integrate: Integrator

    var solved: bool
    var tCached: seq<real>
    var solution: seq<seq<real>>
    ghost var origin: seq<real>

    var resampleVars: Option<map<string, Array>>
    var logWeights: Option<seq<real>>
    var weights: Option<seq<real>>

    function NbSamples(): nat { config.classification.nbSamples }
    function NbGroups(): nat { config.inputs.nbGroups }
    function SampleVars(): seq<Entry> { config.classification.samples }

    ghost function CacheOf(): Cache
      reads this
    {
      Cache(solved, tCached, solution, origin)
    }

    /**
     * The configuration is what the constructor computes from its inputs,
     * the cache holds the clipped integration it claims to hold, and the
     * posterior fields are set together, one value per sample.
     */
    ghost predicate Valid()
      reads this
    {
      Init(config.inputs) == Ok(config)
      && DistinctKeys(SampleVars()) && AllMatrices(SampleVars())
      && CacheConsistent(integrate, NbSamples(), NbGroups(), CacheOf())
      && (logWeights.Some? <==> weights.Some?) && (logWeights.Some? <==> resampleVars.Some?)
      && (logWeights.Some? ==> |logWeights.value| == NbSamples())
    }

    constructor (inp: Inputs, integrate: Integrator)
      requires Init(inp).Ok?
      ensures config == Init(inp).value && this.integrate == integrate
      ensures !solved && resampleVars.None? && logWeights.None? && weights.None?
      ensures Valid()
    {
      config := Init(inp).value;
      this.integrate := integrate;
      solved := false;
      tCached := [];
      solution := [];
      origin := [];
      resampleVars := None;
      logWeights := None;
      weights := None;
      new;
      InitSampleVars(inp);
      forall j | 0 <= j < |SampleVars()| ensures |SampleVars()[j].value.shape| == 2 {
        assert SetsSampleCount(SampleVars()[j]);
      }
    }

    /** `SamplingNInfectiousModel(...)`: the constructor's assertions raise, or a fresh model. */
    static method Create(inp: Inputs, integrate: Integrator) returns (r: Result<Model, InitError>)
      ensures r.Err? <==> Init(inp).Err?
      ensures r.Err? ==> r.error == Init(inp).error
      ensures r.Ok? ==> (fresh(r.value) && r.value.Valid() && r.value.config == Init(inp).value
                         && !r.value.solved && r.value.logWeights.None?)
    {
      match Init(inp)
      case Err(e) =>
        return Err(e);
      case Ok(_) =>
        var m := new Model(inp, integrate);
        return Ok(m);
    }

    /** `solve(t, y0)`: the solution and the new cache are those of SolveStep. */
    method Solve(t: seq<real>, y0: Option<seq<real>>) returns (r: Result<seq<seq<real>>, SolveError>)
      requires Valid()
      modifies this`solved, this`tCached, this`solution, this`origin
      ensures Valid()
      ensures (r, CacheOf()) == SolveStep(integrate, NbSamples(), NbGroups(), config.inputs.y0, old(CacheOf()), t, y0)
    {
      var y := if y0.Some? then y0.value else config.inputs.y0;
      var recompute: Result<bool, SolveError> := Ok(true);
      if solved {
        recompute := NeedsRecompute(t, tCached, y, config.inputs.y0);
      }
      if recompute.Err? {
        return Err(recompute.error);
      }
      if !recompute.value {
        return Ok(solution);
      }
      var sol := Integrate(integrate, NbSamples(), NbGroups(), y, t);
      if sol.Err? {
        return Err(sol.error);
      }
      solution := sol.value;
      tCached := t;
      solved := true;
      origin := y;
      return sol;
    }

    /**
     * `calculate_sir_posterior(...)`: solve, weigh every sample by the
     * observed channels, and gather the sampled parameters at the drawn
     * indices. The cache changes as Solve says even when a later step raises;
     * the posterior fields change only on success.
     */
    method CalculateSirPosterior(t: seq<real>, ob: Observations, ratios: DetectionRatios, y0: Option<seq<real>>,
                                 smoothing: real, term: Term, softmax: seq<real> -> seq<real>, idx: seq<nat>)
      returns (err: Option<PosteriorError>)
      requires Valid() && smoothing != 0.0 && IndicesBelow(idx, NbSamples())
      modifies this
      ensures Valid()
      ensures var s := SolveStep(integrate, NbSamples(), NbGroups(), config.inputs.y0, old(CacheOf()), t, y0);
        CacheOf() == s.1
        && (s.0.Err? ==> err == Some(SolveFailed(s.0.error)))
        && (s.0.Ok? ==>
              (Trajectory(s.0.value, NbSamples(), NbGroups())
               && var w := Weigh(term, ob, s.0.value, NbSamples(), NbGroups(), ratios, smoothing, softmax);
               (w.Err? ==> err == Some(w.error))
               && (w.Ok? ==>
                     ((err.None? <==> forall j :: 0 <= j < |SampleVars()| ==> RowsExist(SampleVars(), j, idx))
                      && (err.Some? ==> err.value.IndexError? && FirstMissingRows(SampleVars(), idx, err.value.key))
                      && (err.None? ==> (logWeights == Some(w.value.0) && weights == Some(w.value.1)
                                         && resampleVars.Some? && Resampled(resampleVars.value, SampleVars(), idx)))))))
      ensures err.Some? ==>
        resampleVars == old(resampleVars) && logWeights == old(logWeights) && weights == old(weights)
    {
      var sol := Solve(t, y0);
      if sol.Err? {
        return Some(SolveFailed(sol.error));
      }
      var w := Weigh(term, ob, sol.value, NbSamples(), NbGroups(), ratios, smoothing, softmax);
      if w.Err? {
        return Some(w.error);
      }
      var resampled := ResampleVars(SampleVars(), idx);
      if resampled.Err? {
        return Some(IndexError(resampled.error));
      }
      resampleVars := Some(resampled.value);
      logWeights := Some(w.value.0);
      weights := Some(w.value.1);
      return None;
    }
  }
}
