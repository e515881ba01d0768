/**
 * `SamplingNInfectiousModel.__init__`: the derived proportions, the range
 * assertions, the classification of all parameters, the size check on y0, the
 * per-sample population n and the infectiousness multiplier.
 *
 * The range assertions are modelled as written: the loop over the rate
 * parameters tests `beta` under every key, and every proportion, derived ones
 * included, must be both <= 1 and >= 1.
 */
module Construction {
  import opened Results
  import opened Tensors
  import opened Classifier
  import Ode

  /** The constructor's arguments after `np.asarray`. */
  datatype Inputs = Inputs(
    nbGroups: nat,
    beta: Array, relLockdownBeta: Array, relPostlockdownBeta: Array, relBetaAs: Array,
    propAs: Array, propM: Array, propSToH: Array, propHToC: Array, propHToD: Array, propCToD: Array,
    timeIncubate: Array, timeInfectious: Array, timeSToH: Array, timeSToC: Array, timeHToC: Array,
    timeHToR: Array, timeHToD: Array, timeCToR: Array, timeCToD: Array,
    y0: seq<real>)

  /** The exceptions the constructor raises. */
  datatype InitError =
    | BroadcastError(key: string)
    | NegativeRate(key: string)
    | ProportionAboveOne(key: string)
    | ProportionBelowOne(key: string)
    | NegativeTime(key: string)
    | ShapeError(cause: ClassifyError)
    | Y0SizeError(expected: nat, got: nat)

  /** prop_s, prop_s_to_c and prop_h_to_r. */
  datatype Derived = Derived(propS: Array, propSToC: Array, propHToR: Array)

  /** What a constructed model holds. */
  datatype Config = Config(inputs: Inputs, derived: Derived, classification: Classification, n: seq<real>)

  /** Lines 63-65; computing `1 - a - b` fails when a and b do not broadcast. */
  function DeriveProportions(inp: Inputs): Result<Derived, InitError>
  {
    match Sub(OneMinus(inp.propAs), inp.propM)
    case None => Err(BroadcastError("prop_s"))
    case Some(propS) =>
      match Sub(OneMinus(inp.propHToC), inp.propHToD)
      case None => Err(BroadcastError("prop_h_to_r"))
      case Some(propHToR) => Ok(Derived(propS, OneMinus(inp.propSToH), propHToR))
  }

  /**
   * Element k of prop_s is 1 minus the element of prop_as that broadcasting
   * places there minus the element of prop_m placed there; for operands of
   * rank at most two prop_s has the broadcast shape.
   */
  lemma PropSElements(inp: Inputs, d: Derived, k: nat)
    requires DeriveProportions(inp) == Ok(d) && k < |d.propS.data|
    ensures SourceIndex(inp.propAs, d.propS, k) < |inp.propAs.data| && SourceIndex(inp.propM, d.propS, k) < |inp.propM.data|
    ensures d.propS.data[k]
      == 1.0 - inp.propAs.data[SourceIndex(inp.propAs, d.propS, k)] - inp.propM.data[SourceIndex(inp.propM, d.propS, k)]
    ensures |inp.propAs.shape| <= 2 && |inp.propM.shape| <= 2 ==>
      (|d.propS.shape| == (if |inp.propAs.shape| < |inp.propM.shape| then |inp.propM.shape| else |inp.propAs.shape|)
      && Some(Rows(d.propS)) == BroadcastDim(Rows(inp.propAs), Rows(inp.propM))
      && Some(Cols(d.propS)) == BroadcastDim(Cols(inp.propAs), Cols(inp.propM)))
  {
    var a := OneMinus(inp.propAs);
    assert Sub(a, inp.propM) == Some(d.propS);
    SubAt(a, inp.propM, k);
    assert SourceIndex(a, d.propS, k) == SourceIndex(inp.propAs, d.propS, k);
    if |inp.propAs.shape| <= 2 && |inp.propM.shape| <= 2 {
      SubShape(a, inp.propM);
    }
  }

  /**
   * Element k of prop_h_to_r is 1 minus the element of prop_h_to_c that
   * broadcasting places there minus the element of prop_h_to_d placed there;
   * for operands of rank at most two prop_h_to_r has the broadcast shape.
   */
  lemma PropHToRElements(inp: Inputs, d: Derived, k: nat)
    requires DeriveProportions(inp) == Ok(d) && k < |d.propHToR.data|
    ensures SourceIndex(inp.propHToC, d.propHToR, k) < |inp.propHToC.data|
      && SourceIndex(inp.propHToD, d.propHToR, k) < |inp.propHToD.data|
    ensures d.propHToR.data[k]
      == 1.0 - inp.propHToC.data[SourceIndex(inp.propHToC, d.propHToR, k)]
      - inp.propHToD.data[SourceIndex(inp.propHToD, d.propHToR, k)]
    ensures |inp.propHToC.shape| <= 2 && |inp.propHToD.shape| <= 2 ==>
      (|d.propHToR.shape| == (if |inp.propHToC.shape| < |inp.propHToD.shape| then |inp.propHToD.shape| else |inp.propHToC.shape|)
      && Some(Rows(d.propHToR)) == BroadcastDim(Rows(inp.propHToC), Rows(inp.propHToD))
      && Some(Cols(d.propHToR)) == BroadcastDim(Cols(inp.propHToC), Cols(inp.propHToD)))
  {
    var a := OneMinus(inp.propHToC);
    assert Sub(a, inp.propHToD) == Some(d.propHToR);
    SubAt(a, inp.propHToD, k);
    assert SourceIndex(a, d.propHToR, k) == SourceIndex(inp.propHToC, d.propHToR, k);
    if |inp.propHToC.shape| <= 2 && |inp.propHToD.shape| <= 2 {
      SubShape(a, inp.propHToD);
    }
  }

  /** prop_s and prop_h_to_r exist exactly when their operands broadcast (operands of rank at most two). */
  lemma DeriveProportionsDefined(inp: Inputs)
    requires |inp.propAs.shape| <= 2 && |inp.propM.shape| <= 2
    requires |inp.propHToC.shape| <= 2 && |inp.propHToD.shape| <= 2
    ensures DeriveProportions(inp).Ok? <==>
      (BroadcastDim(Rows(inp.propAs), Rows(inp.propM)).Some? && BroadcastDim(Cols(inp.propAs), Cols(inp.propM)).Some?
      && BroadcastDim(Rows(inp.propHToC), Rows(inp.propHToD)).Some?
      && BroadcastDim(Cols(inp.propHToC), Cols(inp.propHToD)).Some?)
  {
    SubShape(OneMinus(inp.propAs), inp.propM);
    SubShape(OneMinus(inp.propHToC), inp.propHToD);
  }

  /** prop_s_to_c has prop_s_to_h's shape and is 1 minus it elementwise. */
  lemma PropSToCElements(inp: Inputs, d: Derived)
    requires DeriveProportions(inp) == Ok(d)
    ensures d.propSToC == OneMinus(inp.propSToH)
    ensures d.propSToC.shape == inp.propSToH.shape
    ensures forall k :: 0 <= k < |d.propSToC.data| ==> d.propSToC.data[k] == 1.0 - inp.propSToH.data[k]
  {
  }

  function BetaVars(inp: Inputs): seq<Entry>
  {
    [Entry("beta", inp.beta), Entry("rel_lockdown_beta", inp.relLockdownBeta),
     Entry("rel_postlockdown_beta", inp.relPostlockdownBeta), Entry("rel_beta_as", inp.relBetaAs)]
  }

  function PropVars(inp: Inputs, d: Derived): seq<Entry>
  {
    [Entry("prop_as", inp.propAs), Entry("prop_m", inp.propM), Entry("prop_s", d.propS),
     Entry("prop_s_to_h", inp.propSToH), Entry("prop_s_to_c", d.propSToC), Entry("prop_h_to_c", inp.propHToC),
     Entry("prop_h_to_d", inp.propHToD), Entry("prop_h_to_r", d.propHToR), Entry("prop_c_to_d", inp.propCToD)]
  }

  function TimeVars(inp: Inputs): seq<Entry>
  {
    [Entry("time_incubate", inp.timeIncubate), Entry("time_infectious", inp.timeInfectious),
     Entry("time_s_to_h", inp.timeSToH), Entry("time_s_to_c", inp.timeSToC), Entry("time_h_to_c", inp.timeHToC),
     Entry("time_h_to_r", inp.timeHToR), Entry("time_h_to_d", inp.timeHToD), Entry("time_c_to_r", inp.timeCToR),
     Entry("time_c_to_d", inp.timeCToD)]
  }

  /** Lines 101-102: for each rate key the assertion tests `beta`, not the key's own value. */
  function RateCheck(keys: seq<Entry>, beta: Array): Option<InitError>
  {
    if keys == [] then None
    else if !AllAtLeast(beta, 0.0) then Some(NegativeRate(keys[0].key))
    else RateCheck(keys[1..], beta)
  }

  /** Lines 103-105: each proportion must be <= 1 and then >= 1. */
  function ProportionCheck(vars: seq<Entry>): Option<InitError>
  {
    if vars == [] then None
    else if !AllAtMost(vars[0].value, 1.0) then Some(ProportionAboveOne(vars[0].key))
    else if !AllAtLeast(vars[0].value, 1.0) then Some(ProportionBelowOne(vars[0].key))
    else ProportionCheck(vars[1..])
  }

  /** Lines 106-107: each time must be >= 0. */
  function TimeCheck(vars: seq<Entry>): Option<InitError>
  {
    if vars == [] then None
    else if !AllAtLeast(vars[0].value, 0.0) then Some(NegativeTime(vars[0].key))
    else TimeCheck(vars[1..])
  }

  /**
   * Line 130: the population of each sample is the sum of its block of
   * blockSize (= nb_groups * 16) consecutive values of y0.
   */
  function Population(y0: seq<real>, nbSamples: nat, blockSize: nat): (n: seq<real>)
    requires |y0| == nbSamples * blockSize
    ensures |n| == nbSamples
    decreases nbSamples
  {
    if nbSamples == 0 then []
    else
      assert |y0| == blockSize + (nbSamples - 1) * blockSize;
      [Sum(y0[..blockSize])] + Population(y0[blockSize..], nbSamples - 1, blockSize)
  }

  /** Lines 101-107: the first range assertion that fails, if any. */
  function CheckRanges(inp: Inputs, d: Derived): Option<InitError>
  {
    match RateCheck(BetaVars(inp), inp.beta)
    case Some(e) => Some(e)
    case None =>
      match ProportionCheck(PropVars(inp, d))
      case Some(e) => Some(e)
      case None => TimeCheck(TimeVars(inp))
  }

  /** Lines 114-130: classify every parameter, check y0's size and compute n. */
  function Finish(inp: Inputs, d: Derived): Result<Config, InitError>
  {
    match Classify(BetaVars(inp) + PropVars(inp, d) + TimeVars(inp), inp.nbGroups)
    case Err(e) => Err(ShapeError(e))
    case Ok(c) =>
      if |inp.y0| != Ode.NbStates * inp.nbGroups * c.nbSamples then
        Err(Y0SizeError(Ode.NbStates * inp.nbGroups * c.nbSamples, |inp.y0|))
      else
        Ok(Config(inp, d, c, Population(inp.y0, c.nbSamples, inp.nbGroups * Ode.NbStates)))
  }

  /** The constructor, up to the point where the fields are set. */
  function Init(inp: Inputs): Result<Config, InitError>
  {
    var d :- DeriveProportions(inp);
    match CheckRanges(inp, d)
    case Some(e) => Err(e)
    case None => Finish(inp, d)
  }

  // ---------------------------------------------------------------------------
  // What the checks accept

  lemma {:induction false} RateCheckPasses(keys: seq<Entry>, beta: Array)
    ensures RateCheck(keys, beta).None? <==> (keys == [] || AllAtLeast(beta, 0.0))
    ensures RateCheck(keys, beta).Some? ==> RateCheck(keys, beta).value == NegativeRate(keys[0].key)
    decreases |keys|
  {
    if keys != [] {
      RateCheckPasses(keys[1..], beta);
    }
  }

  predicate AllExactlyOne(vars: seq<Entry>)
  {
    forall i :: 0 <= i < |vars| ==> AllEqual(vars[i].value, 1.0)
  }

  predicate AllNonNegative(vars: seq<Entry>)
  {
    forall i :: 0 <= i < |vars| ==> AllAtLeast(vars[i].value, 0.0)
  }

  lemma {:induction false} ProportionCheckPasses(vars: seq<Entry>)
    ensures ProportionCheck(vars).None? <==> AllExactlyOne(vars)
    ensures ProportionCheck(vars).Some? ==>
      ProportionCheck(vars).value.ProportionAboveOne? || ProportionCheck(vars).value.ProportionBelowOne?
    decreases |vars|
  {
    if vars != [] {
      ProportionCheckPasses(vars[1..]);
      assert forall i :: 1 <= i < |vars| ==> vars[i] == vars[1..][i - 1];
      assert AllAtMost(vars[0].value, 1.0) && AllAtLeast(vars[0].value, 1.0) <==> AllEqual(vars[0].value, 1.0);
    }
  }

  lemma {:induction false} TimeCheckPasses(vars: seq<Entry>)
    ensures TimeCheck(vars).None? <==> AllNonNegative(vars)
    ensures TimeCheck(vars).Some? ==> TimeCheck(vars).value.NegativeTime?
    decreases |vars|
  {
    if vars != [] {
      TimeCheckPasses(vars[1..]);
      assert forall i :: 1 <= i < |vars| ==> vars[i] == vars[1..][i - 1];
    }
  }

  /**
   * The range assertions pass exactly when beta is non-negative, every
   * proportion is exactly 1 and every time is non-negative; a failing rate
   * assertion always names `beta`.
   */
  lemma CheckRangesPass(inp: Inputs, d: Derived)
    ensures CheckRanges(inp, d).None? <==>
      AllAtLeast(inp.beta, 0.0) && AllExactlyOne(PropVars(inp, d)) && AllNonNegative(TimeVars(inp))
    ensures CheckRanges(inp, d).Some? && CheckRanges(inp, d).value.NegativeRate? ==>
      CheckRanges(inp, d).value.key == "beta" && !AllAtLeast(inp.beta, 0.0)
  {
    RateCheckPasses(BetaVars(inp), inp.beta);
    ProportionCheckPasses(PropVars(inp, d));
    TimeCheckPasses(TimeVars(inp));
  }

  /** Everything the constructor's checks demand, stated without the checks. */
  predicate AcceptedAsWritten(inp: Inputs)
  {
    DeriveProportions(inp).Ok?
    && var d := DeriveProportions(inp).value;
    var vars := BetaVars(inp) + PropVars(inp, d) + TimeVars(inp);
    && AllAtLeast(inp.beta, 0.0)
    && AllExactlyOne(PropVars(inp, d))
    && AllNonNegative(TimeVars(inp))
    && AllAccepted(vars, inp.nbGroups)
    && |inp.y0| == Ode.NbStates * inp.nbGroups * SampleCount(vars)
  }

  /**
   * The constructor succeeds exactly when the proportions broadcast, beta is
   * non-negative, every proportion (derived ones included) is exactly 1, every
   * time is non-negative, every parameter has an accepted shape and y0 has
   * 16 * G * S values.
   */
  lemma InitOkIff(inp: Inputs)
    ensures Init(inp).Ok? <==> AcceptedAsWritten(inp)
  {
    if DeriveProportions(inp).Ok? {
      var d := DeriveProportions(inp).value;
      var vars := BetaVars(inp) + PropVars(inp, d) + TimeVars(inp);
      CheckRangesPass(inp, d);
      ClassifyOkIff(vars, inp.nbGroups);
      if Classify(vars, inp.nbGroups).Ok? {
        ClassifyNbSamples(vars, inp.nbGroups);
      }
    }
  }

  /**
   * As written, the constructor only ever succeeds without population groups:
   * prop_s_to_h and prop_s_to_c = 1 - prop_s_to_h cannot both be 1, so
   * prop_s_to_h must be empty, and an accepted parameter is empty only when G = 0.
   */
  lemma InitOnlyWithoutGroups(inp: Inputs)
    requires Init(inp).Ok?
    ensures inp.nbGroups == 0
  {
    InitOkIff(inp);
    var d := DeriveProportions(inp).value;
    var vars := BetaVars(inp) + PropVars(inp, d) + TimeVars(inp);
    PropSToHEmpty(inp, d);
    assert vars[7] == Entry("prop_s_to_h", inp.propSToH);
    ClassifyOkIff(vars, inp.nbGroups);
    assert AcceptedBefore(false, vars, |vars|, inp.nbGroups);
    assert Accepted(vars, 7, inp.nbGroups);
    EmptyAcceptedMeansNoGroups(vars, 7, inp.nbGroups);
  }

  /** prop_s_to_h and 1 - prop_s_to_h both all 1 leaves prop_s_to_h empty. */
  lemma PropSToHEmpty(inp: Inputs, d: Derived)
    requires DeriveProportions(inp) == Ok(d) && AllExactlyOne(PropVars(inp, d))
    ensures |inp.propSToH.data| == 0
  {
    var props := PropVars(inp, d);
    PropSToCElements(inp, d);
    assert props[3].value == inp.propSToH && props[4].value == OneMinus(inp.propSToH);
    OneMinusBothOne(inp.propSToH);
  }

  lemma OneMinusBothOne(a: Array)
    requires AllEqual(a, 1.0) && AllEqual(OneMinus(a), 1.0)
    ensures |a.data| == 0
  {
    NotBothOne(a, 0);
  }

  lemma NotBothOne(a: Array, k: int)
    ensures 0 <= k < |a.data| ==> !(a.data[k] == 1.0 && OneMinus(a).data[k] == 1.0)
  {
  }

  /** An accepted parameter with no elements exists only when there are no groups. */
  lemma EmptyAcceptedMeansNoGroups(vars: seq<Entry>, i: nat, nbGroups: nat)
    requires i < |vars| && Accepted(vars, i, nbGroups) && |vars[i].value.data| == 0
    ensures nbGroups == 0
  {
    var h := vars[i].value;
    SizeRowsCols(h);
    if |h.shape| == 0 {
    } else if SampleShaped(vars[i], nbGroups) {
      assert h.shape[0] * h.shape[1] == 0;
      assert h.shape[1] == 0;
    } else {
      assert h.shape == [1, nbGroups];
    }
  }

  /** The rate assertion only ever reports `beta`, whichever rate parameter is out of range. */
  lemma RateErrorNamesBeta(inp: Inputs, k: string)
    requires Init(inp) == Err(NegativeRate(k))
    ensures k == "beta" && !AllAtLeast(inp.beta, 0.0)
  {
    var d := DeriveProportions(inp).value;
    CheckRangesPass(inp, d);
  }

  /** A model with no groups and one sample is accepted: the characterisation is not vacuous. */
  lemma InitAcceptsEmptyGroups()
    ensures Init(EmptyGroupsInputs()).Ok?
  {
    var inp := EmptyGroupsInputs();
    var s := Tensor([], [1.0]);
    var empty := Tensor([1, 0], []);
    var d := Derived(empty, empty, empty);
    assert DeriveProportions(inp) == Ok(d);
    var vars := BetaVars(inp) + PropVars(inp, d) + TimeVars(inp);
    assert forall i :: 0 <= i < |vars| ==> vars[i].value == s || vars[i].value == empty;
    assert AllExactlyOne(PropVars(inp, d));
    assert AllNonNegative(TimeVars(inp));
    forall i | 0 <= i < |vars| ensures Accepted(vars, i, 0) {
      assert vars[i].value.shape == [] || vars[i].value.shape == [1, 0];
    }
    ClassifyOkIff(vars, 0);
    InitOkIff(inp);
  }

  function EmptyGroupsInputs(): Inputs
  {
    var s := Tensor([], [1.0]);
    var empty := Tensor([1, 0], []);
    Inputs(0, s, s, s, s, empty, s, empty, empty, s, s, s, s, s, s, s, s, s, s, s, [])
  }

  /** The 22 parameter names are distinct, so the classified buckets are dictionaries. */
  lemma VarsDistinct(inp: Inputs, d: Derived)
    ensures DistinctKeys(BetaVars(inp) + PropVars(inp, d) + TimeVars(inp))
  {
    var b, p, t := BetaVars(inp), PropVars(inp, d), TimeVars(inp);
    var vars := b + p + t;
    assert forall j :: 0 <= j < 4 ==> b[j].key == ParameterNames[j];
    assert forall j :: 0 <= j < 9 ==> p[j].key == ParameterNames[4 + j];
    assert forall j :: 0 <= j < 9 ==> t[j].key == ParameterNames[13 + j];
    assert forall j :: 0 <= j < |vars| ==> vars[j].key == ParameterNames[j];
    NamesDistinct();
  }

  const ParameterNames: seq<string> := [
    "beta", "rel_lockdown_beta", "rel_postlockdown_beta", "rel_beta_as",
    "prop_as", "prop_m", "prop_s", "prop_s_to_h", "prop_s_to_c", "prop_h_to_c", "prop_h_to_d", "prop_h_to_r", "prop_c_to_d",
    "time_incubate", "time_infectious", "time_s_to_h", "time_s_to_c", "time_h_to_c", "time_h_to_r", "time_h_to_d",
    "time_c_to_r", "time_c_to_d"]

  lemma NamesDistinct()
    ensures forall j, j' :: 0 <= j < j' < |ParameterNames| ==> ParameterNames[j] != ParameterNames[j']
  {
  }

  /** The sample variables of a constructed model have distinct keys and are matrices with more than one row. */
  lemma InitSampleVars(inp: Inputs)
    requires Init(inp).Ok?
    ensures DistinctKeys(Init(inp).value.classification.samples)
    ensures forall e :: e in Init(inp).value.classification.samples ==> SetsSampleCount(e)
  {
    InitFields(inp);
    var d := DeriveProportions(inp).value;
    var vars := BetaVars(inp) + PropVars(inp, d) + TimeVars(inp);
    ClassifyBuckets(vars, inp.nbGroups);
    VarsDistinct(inp, d);
    FilterDistinct(vars, SampleKind);
  }

  /**
   * A constructed model holds its inputs, the derived proportions, the
   * classification of all 22 parameters in dictionary order, and n, whose
   * entries add up to the whole of y0.
   */
  lemma InitFields(inp: Inputs)
    requires Init(inp).Ok?
    ensures DeriveProportions(inp).Ok?
    ensures var d := DeriveProportions(inp).value;
      var vars := BetaVars(inp) + PropVars(inp, d) + TimeVars(inp);
      var c := Init(inp).value;
      Classify(vars, inp.nbGroups).Ok?
      && c.inputs == inp && c.derived == d && c.classification == Classify(vars, inp.nbGroups).value
      && |inp.y0| == c.classification.nbSamples * (inp.nbGroups * Ode.NbStates)
      && c.n == Population(inp.y0, c.classification.nbSamples, inp.nbGroups * Ode.NbStates)
      && |c.n| == c.classification.nbSamples
      && Sum(c.n) == Sum(inp.y0)
  {
    var d := DeriveProportions(inp).value;
    var vars := BetaVars(inp) + PropVars(inp, d) + TimeVars(inp);
    var S := Classify(vars, inp.nbGroups).value.nbSamples;
    assert Ode.NbStates * inp.nbGroups * S == S * (inp.nbGroups * Ode.NbStates);
    PopulationTotal(inp.y0, S, inp.nbGroups * Ode.NbStates);
  }

  // ---------------------------------------------------------------------------
  // Population

  lemma {:induction false} PopulationBlock(y0: seq<real>, nbSamples: nat, blockSize: nat, i: nat)
    requires |y0| == nbSamples * blockSize && i < nbSamples
    ensures (i + 1) * blockSize <= |y0|
    ensures Population(y0, nbSamples, blockSize)[i] == Sum(y0[i * blockSize..(i + 1) * blockSize])
    decreases nbSamples
  {
    BlockShift(nbSamples, blockSize);
    if i == 0 {
      assert y0[i * blockSize..(i + 1) * blockSize] == y0[..blockSize];
    } else {
      var rest := y0[blockSize..];
      PopulationBlock(rest, nbSamples - 1, blockSize, i - 1);
      assert Population(y0, nbSamples, blockSize)[i] == Population(rest, nbSamples - 1, blockSize)[i - 1];
      SliceShift(y0, blockSize, i);
    }
  }

  /** Block i of y0 is block i - 1 of y0 without its first block. */
  lemma SliceShift(y0: seq<real>, blockSize: nat, i: nat)
    requires i > 0 && blockSize <= |y0| && i * blockSize <= |y0| - blockSize
    ensures (i - 1) * blockSize <= i * blockSize && (i + 1) * blockSize <= |y0|
    ensures y0[blockSize..][(i - 1) * blockSize..i * blockSize] == y0[i * blockSize..(i + 1) * blockSize]
  {
    BlockShift(i, blockSize);
    BlockShift(i + 1, blockSize);
  }

  lemma BlockShift(j: nat, blockSize: nat)
    requires j > 0
    ensures j * blockSize == blockSize + (j - 1) * blockSize
  {
  }

  /** Summing n over the samples gives the sum of all of y0. */
  lemma {:induction false} PopulationTotal(y0: seq<real>, nbSamples: nat, blockSize: nat)
    requires |y0| == nbSamples * blockSize
    ensures Sum(Population(y0, nbSamples, blockSize)) == Sum(y0)
    decreases nbSamples
  {
    if nbSamples > 0 {
      assert |y0| == blockSize + (nbSamples - 1) * blockSize;
      var n := Population(y0, nbSamples, blockSize);
      PopulationTotal(y0[blockSize..], nbSamples - 1, blockSize);
      assert n[1..] == Population(y0[blockSize..], nbSamples - 1, blockSize);
      assert y0 == y0[..blockSize] + y0[blockSize..];
      SumConcat(y0[..blockSize], y0[blockSize..]);
    } else {
      assert y0 == [];
    }
  }

  // ---------------------------------------------------------------------------
  // Infectiousness multiplier

  /** Lines 133-141, with line 137's `(t - 11)` as written; t is in days, 5 * 7 = 35. */
  function InfectiousMultiplier(t: real, relLockdownBeta: real, relPostlockdownBeta: real): real
  {
    if t < -11.0 then 1.0
    else if -11.0 <= t < 0.0 then 1.0 - (1.0 - relLockdownBeta) / 11.0 * (t - 11.0)
    else if 0.0 <= t < 35.0 then relLockdownBeta
    else relPostlockdownBeta
  }

  /** infectious_func over arrays: the ramp and the plateaus are elementwise in rel_lockdown_beta. */
  function InfectiousFunc(t: real, relLockdownBeta: Array, relPostlockdownBeta: Array): Array
  {
    if t < -11.0 then One
    else if -11.0 <= t < 0.0 then
      Tensor(relLockdownBeta.shape, seq(|relLockdownBeta.data|, k requires 0 <= k < |relLockdownBeta.data| =>
        1.0 - (1.0 - relLockdownBeta.data[k]) / 11.0 * (t - 11.0)))
    else if 0.0 <= t < 35.0 then relLockdownBeta
    else relPostlockdownBeta
  }

  /**
   * The array form agrees with the scalar multiplier element by element; the
   * piece that applies to t decides which parameter's shape the result takes.
   */
  lemma InfectiousFuncPointwise(t: real, rlb: Array, rpb: Array)
    ensures t < -11.0 ==> InfectiousFunc(t, rlb, rpb) == One
    ensures -11.0 <= t < 35.0 ==> InfectiousFunc(t, rlb, rpb).shape == rlb.shape
    ensures -11.0 <= t < 35.0 ==> forall k, p :: 0 <= k < |rlb.data| ==>
      InfectiousFunc(t, rlb, rpb).data[k] == InfectiousMultiplier(t, rlb.data[k], p)
    ensures 35.0 <= t ==> InfectiousFunc(t, rlb, rpb).shape == rpb.shape
    ensures 35.0 <= t ==> forall k, r :: 0 <= k < |rpb.data| ==>
      InfectiousFunc(t, rlb, rpb).data[k] == InfectiousMultiplier(t, r, rpb.data[k])
  {
  }

  /** The straight line from 1 at day -11 down to rel_lockdown_beta at day 0. */
  function LinearRamp(t: real, relLockdownBeta: real): (r: real)
    ensures t == -11.0 ==> r == 1.0
    ensures t == 0.0 ==> r == relLockdownBeta
  {
    1.0 - (1.0 - relLockdownBeta) / 11.0 * (t + 11.0)
  }

  /** Before day -11 the multiplier is 1; on [0, 35) it is rel_lockdown_beta; from day 35 rel_postlockdown_beta. */
  lemma MultiplierPlateaus(t: real, r: real, p: real)
    ensures t < -11.0 ==> InfectiousMultiplier(t, r, p) == 1.0
    ensures 0.0 <= t < 35.0 ==> InfectiousMultiplier(t, r, p) == r
    ensures 35.0 <= t ==> InfectiousMultiplier(t, r, p) == p
  {
  }

  /**
   * On [-11, 0) the multiplier as written is the line from 1 to
   * rel_lockdown_beta raised by 2 * (1 - rel_lockdown_beta): it starts at
   * 3 - 2r and meets neither neighbouring piece unless r = 1.
   */
  lemma RampOffset(t: real, r: real, p: real)
    requires -11.0 <= t < 0.0
    ensures InfectiousMultiplier(t, r, p) == LinearRamp(t, r) + 2.0 * (1.0 - r)
    ensures InfectiousMultiplier(-11.0, r, p) == 3.0 - 2.0 * r
    ensures InfectiousMultiplier(-11.0, r, p) == 1.0 <==> r == 1.0
  {
    assert (1.0 - r) / 11.0 * (t - 11.0) == (1.0 - r) / 11.0 * (t + 11.0) - 2.0 * (1.0 - r);
  }

  /** With 0 <= rel_lockdown_beta <= 1 the ramp as written is at least 1 and falls with t. */
  lemma RampAboveOneAndFalling(t1: real, t2: real, r: real, p: real)
    requires -11.0 <= t1 <= t2 < 0.0 && 0.0 <= r <= 1.0
    ensures 1.0 <= InfectiousMultiplier(t2, r, p) <= InfectiousMultiplier(t1, r, p) <= 3.0 - 2.0 * r
  {
    var c := (1.0 - r) / 11.0;
    assert c >= 0.0;
    assert c * (11.0 - t2) >= 0.0;
    assert c * (t2 - t1) >= 0.0;
    assert c * (t1 + 11.0) >= 0.0;
    assert c * (t1 - 11.0) == c * (t1 + 11.0) - 22.0 * c;
    assert c * (t2 - 11.0) == c * (t1 - 11.0) + c * (t2 - t1);
  }

  /** With rel_lockdown_beta in [0, 1] and rel_postlockdown_beta >= 0 the multiplier is never negative. */
  lemma MultiplierNonNegative(t: real, r: real, p: real)
    requires 0.0 <= r <= 1.0 && 0.0 <= p
    ensures InfectiousMultiplier(t, r, p) >= 0.0
  {
    if -11.0 <= t < 0.0 {
      RampAboveOneAndFalling(t, t, r, p);
    }
  }
}
