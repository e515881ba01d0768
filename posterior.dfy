/**
 * The pure parts of `calculate_sir_posterior`: the cumulative detected cases
 * of lines 314-315, the per-sample log-likelihood `_log_poisson` summed over
 * time and groups, the sum of the four observation channels, and the
 * resampling of the sample variables with the drawn indices.
 *
 * The elementwise log-Poisson term `k * log(l + 1e-20) - l - gammaln(k + 1)`
 * is a parameter: only how its values are summed is modelled.
 */
module Posterior {
  import opened Results
  import opened Tensors
  import opened Classifier
  import opened Ode

  /** ratio_as_detected, ratio_m_detected and ratio_s_detected. */
  datatype DetectionRatios = DetectionRatios(asymptomatic: real, mild: real, severe: real)

  /** Lines 314-315 for one cell of the solution. */
  function CumulativeDetected(r: DetectionRatios, x: Cell): real
  {
    r.asymptomatic * (x.iAs + x.rAs) + r.mild * (x.iM + x.rM)
    + r.severe * (x.iS + x.iIH + x.iIIcu + x.iH + x.iIcu + x.rH + x.rIcu + x.dIcu)
  }

  /** All 14 compartments are non-negative, as after `clip(min=0)`. */
  predicate CellNonNegative(x: Cell)
  {
    forall k :: 0 <= k < NbCompartments ==> ToSeq(x)[k] >= 0.0
  }

  /** When every case is detected, the cumulative count is everyone who has left S and E. */
  lemma DetectedAllRatiosOne(x: Cell)
    ensures CumulativeDetected(DetectionRatios(1.0, 1.0, 1.0), x) == Total(x) - x.s - x.e
  {
  }

  /** With non-negative ratios and compartments the detected count is non-negative and grows with each ratio. */
  lemma DetectedMonotone(r1: DetectionRatios, r2: DetectionRatios, x: Cell)
    requires CellNonNegative(x)
    requires 0.0 <= r1.asymptomatic <= r2.asymptomatic && 0.0 <= r1.mild <= r2.mild && 0.0 <= r1.severe <= r2.severe
    ensures 0.0 <= CumulativeDetected(r1, x) <= CumulativeDetected(r2, x)
  {
    var q := ToSeq(x);
    assert q[2] >= 0.0 && q[3] >= 0.0 && q[4] >= 0.0 && q[5] >= 0.0 && q[6] >= 0.0 && q[7] >= 0.0;
    assert q[8] >= 0.0 && q[9] >= 0.0 && q[10] >= 0.0 && q[11] >= 0.0 && q[12] >= 0.0 && q[13] >= 0.0;
    var a, m, s := x.iAs + x.rAs, x.iM + x.rM, x.iS + x.iIH + x.iIIcu + x.iH + x.iIcu + x.rH + x.rIcu + x.dIcu;
    assert a >= 0.0 && m >= 0.0 && s >= 0.0;
    ScaleMonotone(r1.asymptomatic, r2.asymptomatic, a);
    ScaleMonotone(r1.mild, r2.mild, m);
    ScaleMonotone(r1.severe, r2.severe, s);
    assert CumulativeDetected(r1, x) == r1.asymptomatic * a + r1.mild * m + r1.severe * s;
    assert CumulativeDetected(r2, x) == r2.asymptomatic * a + r2.mild * m + r2.severe * s;
  }

  lemma ScaleMonotone(c1: real, c2: real, v: real)
    requires 0.0 <= c1 <= c2 && 0.0 <= v
    ensures 0.0 <= c1 * v <= c2 * v
  {
    assert c2 * v - c1 * v == (c2 - c1) * v;
  }

  /** The four observed series of lines 320-323. */
  datatype Channel = DetectedCases | Hospital | Icu | Dead

  /** The modelled quantity a channel's observations are compared with. */
  function Observed(ch: Channel, r: DetectionRatios, x: Cell): real
  {
    match ch
    case DetectedCases => CumulativeDetected(r, x)
    case Hospital => x.iH
    case Icu => x.iIcu
    case Dead => x.dIcu
  }

  /** A solution: one flat state of 16 * nb_samples * nb_groups values per time point. */
  predicate Trajectory(sol: seq<seq<real>>, nbSamples: nat, nbGroups: nat)
  {
    forall t :: 0 <= t < |sol| ==> |sol[t]| == NbStates * (nbSamples * nbGroups)
  }

  /** The index into an axis of length len that broadcasting uses for position t. */
  function BroadcastIndex(t: nat, len: nat): nat
  {
    if len == 1 then 0 else t
  }

  lemma BroadcastIndexBound(t: nat, a: nat, b: nat)
    requires BroadcastDim(a, b).Some? && t < BroadcastDim(a, b).value
    ensures BroadcastIndex(t, a) < a && BroadcastIndex(t, b) < b
  {
  }

  /** The elementwise log-Poisson term; `gammaln` and `log` are not modelled. */
  type Term = (int, real) -> real

  /** Sum over groups 0..g-1 of sample i at one time point. */
  function GroupSum(term: Term, k: int, row: seq<real>, nbSamples: nat, nbGroups: nat,
                    ch: Channel, r: DetectionRatios, i: nat, g: nat): real
    requires |row| == NbStates * (nbSamples * nbGroups) && i < nbSamples && g <= nbGroups
  {
    if g == 0 then 0.0
    else
      FlatIndexBound(i, g - 1, nbSamples, nbGroups);
      CellBound(i * nbGroups + (g - 1), nbSamples * nbGroups);
      GroupSum(term, k, row, nbSamples, nbGroups, ch, r, i, g - 1)
      + term(k, Observed(ch, r, CellAt(row, i * nbGroups + (g - 1))))
  }

  /** Sum over time points 0..n-1 of the group sums of sample i (`np.sum(out, axis=(0, 2))`). */
  function TimeSum(term: Term, obs: seq<int>, sol: seq<seq<real>>, nbSamples: nat, nbGroups: nat,
                   ch: Channel, r: DetectionRatios, i: nat, n: nat): real
    requires Trajectory(sol, nbSamples, nbGroups) && i < nbSamples
    requires BroadcastDim(|obs|, |sol|).Some? && n <= BroadcastDim(|obs|, |sol|).value
  {
    if n == 0 then 0.0
    else
      BroadcastIndexBound(n - 1, |obs|, |sol|);
      TimeSum(term, obs, sol, nbSamples, nbGroups, ch, r, i, n - 1)
      + GroupSum(term, obs[BroadcastIndex(n - 1, |obs|)], sol[BroadcastIndex(n - 1, |sol|)],
                 nbSamples, nbGroups, ch, r, i, nbGroups)
  }

  /**
   * `_log_poisson(obs.reshape(-1, 1, 1), series)`: one log-likelihood per sample;
   * fails when the observations' length broadcasts with neither the number of
   * time points nor 1.
   */
  function LogPoisson(term: Term, obs: seq<int>, sol: seq<seq<real>>, nbSamples: nat, nbGroups: nat,
                      ch: Channel, r: DetectionRatios): (w: Option<seq<real>>)
    requires Trajectory(sol, nbSamples, nbGroups)
    ensures w.Some? <==> (|obs| == |sol| || |obs| == 1 || |sol| == 1)
    ensures w.Some? ==> |w.value| == nbSamples
  {
    match BroadcastDim(|obs|, |sol|)
    case None => None
    case Some(len) =>
      Some(seq(nbSamples, i requires 0 <= i < nbSamples => TimeSum(term, obs, sol, nbSamples, nbGroups, ch, r, i, len)))
  }

  // ---------------------------------------------------------------------------
  // The log-likelihood adds up over time

  lemma {:induction false} TimeSumPrefix(term: Term, obs1: seq<int>, sol1: seq<seq<real>>, obs2: seq<int>, sol2: seq<seq<real>>,
                                         nbSamples: nat, nbGroups: nat, ch: Channel, r: DetectionRatios, i: nat, n: nat)
    requires Trajectory(sol1, nbSamples, nbGroups) && Trajectory(sol2, nbSamples, nbGroups) && i < nbSamples
    requires |obs1| == |sol1| && |obs2| == |sol2| && n <= |obs1|
    ensures Trajectory(sol1 + sol2, nbSamples, nbGroups)
    ensures TimeSum(term, obs1 + obs2, sol1 + sol2, nbSamples, nbGroups, ch, r, i, n)
         == TimeSum(term, obs1, sol1, nbSamples, nbGroups, ch, r, i, n)
    decreases n
  {
    if n > 0 {
      TimeSumPrefix(term, obs1, sol1, obs2, sol2, nbSamples, nbGroups, ch, r, i, n - 1);
      assert BroadcastIndex(n - 1, |obs1 + obs2|) == n - 1 == BroadcastIndex(n - 1, |obs1|);
    }
  }

  lemma {:induction false} TimeSumSuffix(term: Term, obs1: seq<int>, sol1: seq<seq<real>>, obs2: seq<int>, sol2: seq<seq<real>>,
                                         nbSamples: nat, nbGroups: nat, ch: Channel, r: DetectionRatios, i: nat, n: nat)
    requires Trajectory(sol1, nbSamples, nbGroups) && Trajectory(sol2, nbSamples, nbGroups) && i < nbSamples
    requires |obs1| == |sol1| && |obs2| == |sol2| && n <= |obs2|
    ensures Trajectory(sol1 + sol2, nbSamples, nbGroups)
    ensures TimeSum(term, obs1 + obs2, sol1 + sol2, nbSamples, nbGroups, ch, r, i, |obs1| + n)
         == TimeSum(term, obs1, sol1, nbSamples, nbGroups, ch, r, i, |obs1|)
          + TimeSum(term, obs2, sol2, nbSamples, nbGroups, ch, r, i, n)
    decreases n
  {
    if n == 0 {
      TimeSumPrefix(term, obs1, sol1, obs2, sol2, nbSamples, nbGroups, ch, r, i, |obs1|);
    } else {
      TimeSumSuffix(term, obs1, sol1, obs2, sol2, nbSamples, nbGroups, ch, r, i, n - 1);
      var t := |obs1| + n - 1;
      assert BroadcastIndex(t, |obs1 + obs2|) == t;
      assert BroadcastIndex(n - 1, |obs2|) == n - 1;
      assert (obs1 + obs2)[t] == obs2[n - 1] && (sol1 + sol2)[t] == sol2[n - 1];
    }
  }

  /**
   * Observing two stretches of time one after the other gives each sample the
   * sum of the two stretches' log-likelihoods.
   */
  lemma LogPoissonConcat(term: Term, obs1: seq<int>, sol1: seq<seq<real>>, obs2: seq<int>, sol2: seq<seq<real>>,
                         nbSamples: nat, nbGroups: nat, ch: Channel, r: DetectionRatios, i: nat)
    requires Trajectory(sol1, nbSamples, nbGroups) && Trajectory(sol2, nbSamples, nbGroups) && i < nbSamples
    requires |obs1| == |sol1| && |obs2| == |sol2|
    ensures Trajectory(sol1 + sol2, nbSamples, nbGroups)
    ensures LogPoisson(term, obs1 + obs2, sol1 + sol2, nbSamples, nbGroups, ch, r).value[i]
         == LogPoisson(term, obs1, sol1, nbSamples, nbGroups, ch, r).value[i]
          + LogPoisson(term, obs2, sol2, nbSamples, nbGroups, ch, r).value[i]
  {
    TimeSumSuffix(term, obs1, sol1, obs2, sol2, nbSamples, nbGroups, ch, r, i, |obs2|);
  }

  // ---------------------------------------------------------------------------
  // Each sample is weighed on its own trajectory

  /** At every time point sol and sol2 hold the same state for sample i. */
  predicate SameSampleTrajectory(sol: seq<seq<real>>, sol2: seq<seq<real>>, nbGroups: nat, i: nat)
  {
    |sol| == |sol2| && forall t :: 0 <= t < |sol| ==> SameSample(sol[t], sol2[t], nbGroups, i)
  }

  lemma {:induction false} GroupSumSameSample(term: Term, k: int, row: seq<real>, row2: seq<real>, nbSamples: nat, nbGroups: nat,
                                              ch: Channel, r: DetectionRatios, i: nat, g: nat)
    requires |row| == |row2| == NbStates * (nbSamples * nbGroups) && i < nbSamples && g <= nbGroups
    requires SameSample(row, row2, nbGroups, i)
    ensures GroupSum(term, k, row, nbSamples, nbGroups, ch, r, i, g) == GroupSum(term, k, row2, nbSamples, nbGroups, ch, r, i, g)
    decreases g
  {
    if g > 0 {
      GroupSumSameSample(term, k, row, row2, nbSamples, nbGroups, ch, r, i, g - 1);
      FlatIndexBound(i, g - 1, nbSamples, nbGroups);
      CellBound(i * nbGroups + (g - 1), nbSamples * nbGroups);
      SameSampleCell(row, row2, nbGroups, i, g - 1);
    }
  }

  lemma {:induction false} TimeSumSameSample(term: Term, obs: seq<int>, sol: seq<seq<real>>, sol2: seq<seq<real>>,
                                             nbSamples: nat, nbGroups: nat, ch: Channel, r: DetectionRatios, i: nat, n: nat)
    requires Trajectory(sol, nbSamples, nbGroups) && Trajectory(sol2, nbSamples, nbGroups) && i < nbSamples
    requires SameSampleTrajectory(sol, sol2, nbGroups, i)
    requires BroadcastDim(|obs|, |sol|).Some? && n <= BroadcastDim(|obs|, |sol|).value
    ensures TimeSum(term, obs, sol, nbSamples, nbGroups, ch, r, i, n) == TimeSum(term, obs, sol2, nbSamples, nbGroups, ch, r, i, n)
    decreases n
  {
    if n > 0 {
      TimeSumSameSample(term, obs, sol, sol2, nbSamples, nbGroups, ch, r, i, n - 1);
      BroadcastIndexBound(n - 1, |obs|, |sol|);
      var t := BroadcastIndex(n - 1, |sol|);
      GroupSumSameSample(term, obs[BroadcastIndex(n - 1, |obs|)], sol[t], sol2[t], nbSamples, nbGroups, ch, r, i, nbGroups);
    }
  }

  /** A sample's log-likelihood depends on that sample's trajectory only. */
  lemma LogPoissonPerSample(term: Term, obs: seq<int>, sol: seq<seq<real>>, sol2: seq<seq<real>>,
                            nbSamples: nat, nbGroups: nat, ch: Channel, r: DetectionRatios, i: nat)
    requires Trajectory(sol, nbSamples, nbGroups) && Trajectory(sol2, nbSamples, nbGroups) && i < nbSamples
    requires SameSampleTrajectory(sol, sol2, nbGroups, i)
    requires LogPoisson(term, obs, sol, nbSamples, nbGroups, ch, r).Some?
    ensures LogPoisson(term, obs, sol2, nbSamples, nbGroups, ch, r).Some?
    ensures LogPoisson(term, obs, sol, nbSamples, nbGroups, ch, r).value[i]
         == LogPoisson(term, obs, sol2, nbSamples, nbGroups, ch, r).value[i]
  {
    var len := BroadcastDim(|obs|, |sol|).value;
    TimeSumSameSample(term, obs, sol, sol2, nbSamples, nbGroups, ch, r, i, len);
  }

  // ---------------------------------------------------------------------------
  // Summing the channels

  /** The observations passed in; a channel that is None is not observed. */
  datatype Observations = Observations(
    detected: Option<seq<int>>, hospital: Option<seq<int>>, icu: Option<seq<int>>, dead: Option<seq<int>>)

  /**
   * The value of `log_weights` at line 325: the integer 0 when no channel is
   * observed, otherwise one log weight per sample.
   */
  datatype LogWeights = NoObservations | PerSample(values: seq<real>)

  /** Lines 320-323 for one channel: 0 when unobserved, and a failure when the lengths do not broadcast. */
  function ChannelWeight(term: Term, obs: Option<seq<int>>, sol: seq<seq<real>>, nbSamples: nat, nbGroups: nat,
                         ch: Channel, r: DetectionRatios): Result<Option<seq<real>>, Channel>
    requires Trajectory(sol, nbSamples, nbGroups)
  {
    match obs
    case None => Ok(None)
    case Some(o) =>
      match LogPoisson(term, o, sol, nbSamples, nbGroups, ch, r)
      case None => Err(ch)
      case Some(w) => Ok(Some(w))
  }

  /** `acc + w`, where the integer 0 is the neutral element. */
  function AddChannel(acc: LogWeights, w: Option<seq<real>>): LogWeights
    requires acc.PerSample? && w.Some? ==> |acc.values| == |w.value|
  {
    match w
    case None => acc
    case Some(v) =>
      match acc
      case NoObservations => PerSample(v)
      case PerSample(u) => PerSample(seq(|u|, k requires 0 <= k < |u| => u[k] + v[k]))
  }

  /** Lines 320-325. */
  function LogWeightsOf(term: Term, ob: Observations, sol: seq<seq<real>>, nbSamples: nat, nbGroups: nat,
                        r: DetectionRatios): Result<LogWeights, Channel>
    requires Trajectory(sol, nbSamples, nbGroups)
  {
    var d :- ChannelWeight(term, ob.detected, sol, nbSamples, nbGroups, DetectedCases, r);
    var h :- ChannelWeight(term, ob.hospital, sol, nbSamples, nbGroups, Hospital, r);
    var c :- ChannelWeight(term, ob.icu, sol, nbSamples, nbGroups, Icu, r);
    var x :- ChannelWeight(term, ob.dead, sol, nbSamples, nbGroups, Dead, r);
    var w1 := AddChannel(NoObservations, d);
    var w2 := AddChannel(w1, h);
    var w3 := AddChannel(w2, c);
    Ok(AddChannel(w3, x))
  }

  /** A channel's contribution to sample i's log weight: 0 when it is not observed. */
  function Contribution(term: Term, obs: Option<seq<int>>, sol: seq<seq<real>>, nbSamples: nat, nbGroups: nat,
                        ch: Channel, r: DetectionRatios, i: nat): real
    requires Trajectory(sol, nbSamples, nbGroups) && i < nbSamples
  {
    match obs
    case None => 0.0
    case Some(o) =>
      match LogPoisson(term, o, sol, nbSamples, nbGroups, ch, r)
      case None => 0.0
      case Some(w) => w[i]
  }

  /** A channel is observed with a length that broadcasts against the time axis. */
  predicate Broadcasts(obs: Option<seq<int>>, nbTimes: nat)
  {
    obs.None? || |obs.value| == nbTimes || |obs.value| == 1 || nbTimes == 1
  }

  predicate Unobserved(ob: Observations)
  {
    ob.detected.None? && ob.hospital.None? && ob.icu.None? && ob.dead.None?
  }

  lemma AddChannelValues(acc: LogWeights, w: Option<seq<real>>, nbSamples: nat, i: nat, before: real, added: real)
    requires acc.PerSample? ==> |acc.values| == nbSamples
    requires w.Some? ==> |w.value| == nbSamples
    requires i < nbSamples
    requires before == (if acc.PerSample? then acc.values[i] else 0.0)
    requires added == (if w.Some? then w.value[i] else 0.0)
    ensures AddChannel(acc, w).PerSample? <==> acc.PerSample? || w.Some?
    ensures AddChannel(acc, w).PerSample? ==> |AddChannel(acc, w).values| == nbSamples
    ensures AddChannel(acc, w).PerSample? ==> AddChannel(acc, w).values[i] == before + added
  {
  }

  /**
   * The log weights are computed exactly when every observed channel
   * broadcasts; they are the integer 0 exactly when nothing is observed, and
   * otherwise each sample's weight is the sum of the observed channels'
   * log-likelihoods.
   */
  lemma LogWeightsSum(term: Term, ob: Observations, sol: seq<seq<real>>, nbSamples: nat, nbGroups: nat,
                      r: DetectionRatios, i: nat)
    requires Trajectory(sol, nbSamples, nbGroups) && i < nbSamples
    ensures LogWeightsOf(term, ob, sol, nbSamples, nbGroups, r).Ok? <==>
      Broadcasts(ob.detected, |sol|) && Broadcasts(ob.hospital, |sol|) && Broadcasts(ob.icu, |sol|) && Broadcasts(ob.dead, |sol|)
    ensures LogWeightsOf(term, ob, sol, nbSamples, nbGroups, r).Ok? ==>
      var lw := LogWeightsOf(term, ob, sol, nbSamples, nbGroups, r).value;
      (lw.NoObservations? <==> Unobserved(ob))
      && (lw.PerSample? ==>
            (|lw.values| == nbSamples
             && lw.values[i] == Contribution(term, ob.detected, sol, nbSamples, nbGroups, DetectedCases, r, i)
                              + Contribution(term, ob.hospital, sol, nbSamples, nbGroups, Hospital, r, i)
                              + Contribution(term, ob.icu, sol, nbSamples, nbGroups, Icu, r, i)
                              + Contribution(term, ob.dead, sol, nbSamples, nbGroups, Dead, r, i)))
  {
    var rd := ChannelWeight(term, ob.detected, sol, nbSamples, nbGroups, DetectedCases, r);
    var rh := ChannelWeight(term, ob.hospital, sol, nbSamples, nbGroups, Hospital, r);
    var rc := ChannelWeight(term, ob.icu, sol, nbSamples, nbGroups, Icu, r);
    var rx := ChannelWeight(term, ob.dead, sol, nbSamples, nbGroups, Dead, r);
    if rd.Ok? && rh.Ok? && rc.Ok? && rx.Ok? {
      var d, h, c, x := rd.value, rh.value, rc.value, rx.value;
      var cd := Contribution(term, ob.detected, sol, nbSamples, nbGroups, DetectedCases, r, i);
      var ch := Contribution(term, ob.hospital, sol, nbSamples, nbGroups, Hospital, r, i);
      var cc := Contribution(term, ob.icu, sol, nbSamples, nbGroups, Icu, r, i);
      var cx := Contribution(term, ob.dead, sol, nbSamples, nbGroups, Dead, r, i);
      AddChannelValues(NoObservations, d, nbSamples, i, 0.0, cd);
      var w1 := AddChannel(NoObservations, d);
      AddChannelValues(w1, h, nbSamples, i, if w1.PerSample? then cd else 0.0, ch);
      var w2 := AddChannel(w1, h);
      AddChannelValues(w2, c, nbSamples, i, if w2.PerSample? then cd + ch else 0.0, cc);
      var w3 := AddChannel(w2, c);
      AddChannelValues(w3, x, nbSamples, i, if w3.PerSample? then cd + ch + cc else 0.0, cx);
      assert w1.PerSample? ==> w1.values[i] == cd;
      assert w2.PerSample? ==> w2.values[i] == cd + ch;
      assert w3.PerSample? ==> w3.values[i] == cd + ch + cc;
    }
  }

  // ---------------------------------------------------------------------------
  // Resampling

  predicate AllMatrices(vars: seq<Entry>)
  {
    forall j :: 0 <= j < |vars| ==> |vars[j].value.shape| == 2
  }

  /** Every drawn index is a row of entry j. */
  predicate RowsExist(vars: seq<Entry>, j: nat, idx: seq<nat>)
    requires j < |vars| && AllMatrices(vars)
  {
    IndicesBelow(idx, vars[j].value.shape[0])
  }

  /** `m` maps every variable's key, and only those, to the variable's rows at idx. */
  predicate Resampled(m: map<string, Array>, vars: seq<Entry>, idx: seq<nat>)
    requires AllMatrices(vars)
  {
    m.Keys == (set j | 0 <= j < |vars| :: vars[j].key)
    && forall j :: 0 <= j < |vars| ==>
         RowsExist(vars, j, idx) && vars[j].key in m && m[vars[j].key] == Gather(vars[j].value, idx)
  }

  /** key names the first variable that lacks a row for some drawn index. */
  predicate FirstMissingRows(vars: seq<Entry>, idx: seq<nat>, key: string)
    requires AllMatrices(vars)
  {
    exists j :: 0 <= j < |vars| && vars[j].key == key && !RowsExist(vars, j, idx)
      && forall j' :: 0 <= j' < j ==> RowsExist(vars, j', idx)
  }

  /**
   * Lines 344-346: `value[resample_indices]` for every sample variable, in
   * order; the first variable with fewer rows than a drawn index raises
   * IndexError, reported by its key.
   */
  method ResampleVars(vars: seq<Entry>, idx: seq<nat>) returns (r: Result<map<string, Array>, string>)
    requires DistinctKeys(vars) && AllMatrices(vars)
    ensures r.Ok? <==> forall j :: 0 <= j < |vars| ==> RowsExist(vars, j, idx)
    ensures r.Ok? ==> Resampled(r.value, vars, idx)
    ensures r.Err? ==> FirstMissingRows(vars, idx, r.error)
  {
    var acc: map<string, Array> := map[];
    for j := 0 to |vars|
      invariant acc.Keys == (set j' | 0 <= j' < j :: vars[j'].key)
      invariant forall j' :: 0 <= j' < j ==> RowsExist(vars, j', idx) && acc[vars[j'].key] == Gather(vars[j'].value, idx)
    {
      if !RowsExist(vars, j, idx) {
        return Err(vars[j].key);
      }
      acc := acc[vars[j].key := Gather(vars[j].value, idx)];
    }
    return Ok(acc);
  }

  /** Row j of a resampled variable is row idx[j] of the original: sample idx[j] drawn j-th. */
  lemma ResampledRows(vars: seq<Entry>, idx: seq<nat>, resampled: map<string, Array>, j: nat, q: nat)
    requires AllMatrices(vars) && j < |vars| && RowsExist(vars, j, idx)
    requires vars[j].key in resampled && resampled[vars[j].key] == Gather(vars[j].value, idx)
    requires q < |idx|
    ensures resampled[vars[j].key].shape == [|idx|, vars[j].value.shape[1]]
    ensures Row(resampled[vars[j].key], q) == Row(vars[j].value, idx[q])
  {
    GatherRow(vars[j].value, idx, q);
  }
}
