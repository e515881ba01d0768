/**
 * The parameter shape classifier `_determine_sample_vars`: every parameter is a
 * scalar (rank 0), a group vector of shape (1, G) or a sample tensor of shape
 * (S, 1) or (S, G); the number of samples S is read off the first axis.
 *
 * The model follows the code as written: the count is overwritten by every
 * sample tensor before it is compared, so sample tensors with different first
 * axes are never reported as inconsistent and the last one fixes the count,
 * and a group vector after any sample tensor is rejected.
 */
module Classifier {
  import opened Results
  import opened Tensors

  /** One item of the name -> array dictionary, in the dictionary's order. */
  datatype Entry = Entry(key: string, value: Array)

  /** The ValueErrors the classifier raises, each naming the offending parameter. */
  datatype ClassifyError =
    | RankOne(key: string)
    | BadGroupShape(key: string, shape: seq<nat>)
    | InconsistentSamples(key: string, previous: nat, got: nat)
    | BadSampleShape(key: string, nbSamples: nat, shape: seq<nat>)
    | TooManyDims(key: string)

  /** The returned `(nb_samples, (scalar_vars, group_vars, sample_vars))`. */
  datatype Classification = Classification(nbSamples: nat, scalars: seq<Entry>, groups: seq<Entry>, samples: seq<Entry>)

  /** The loop's variables; nbSamples 0 stands for Python's None (both are falsy). */
  datatype Acc = Acc(nbSamples: nat, scalars: seq<Entry>, groups: seq<Entry>, samples: seq<Entry>)

  const Start: Acc := Acc(0, [], [], [])

  /** One iteration of the classification loop. */
  function Step(acc: Acc, e: Entry, nbGroups: nat): Result<Acc, ClassifyError>
  {
    var shape := e.value.shape;
    if |shape| == 0 then Ok(acc.(scalars := acc.scalars + [e]))
    else if |shape| == 1 then Err(RankOne(e.key))
    else if |shape| == 2 then
      if shape[0] <= 1 && shape != [1, nbGroups] then Err(BadGroupShape(e.key, shape))
      else
        var nb := if shape[0] > 1 then shape[0] else acc.nbSamples;
        var groups := if shape[0] > 1 then acc.groups else acc.groups + [e];
        if nb != 0 then
          if shape[0] != nb then Err(InconsistentSamples(e.key, nb, shape[0]))
          else if shape != [nb, 1] && shape != [nb, nbGroups] then Err(BadSampleShape(e.key, nb, shape))
          else Ok(Acc(nb, acc.scalars, groups, acc.samples + [e]))
        else Ok(Acc(nb, acc.scalars, groups, acc.samples))
    else Err(TooManyDims(e.key))
  }

  /** The loop run from state acc over the remaining entries. */
  function FoldFrom(acc: Acc, vars: seq<Entry>, nbGroups: nat): Result<Acc, ClassifyError>
    decreases |vars|
  {
    if vars == [] then Ok(acc)
    else
      match Step(acc, vars[0], nbGroups)
      case Err(e) => Err(e)
      case Ok(next) => FoldFrom(next, vars[1..], nbGroups)
  }

  /** `_determine_sample_vars(vars, nb_groups)` as a function. */
  function Classify(vars: seq<Entry>, nbGroups: nat): Result<Classification, ClassifyError>
  {
    match FoldFrom(Start, vars, nbGroups)
    case Err(e) => Err(e)
    case Ok(a) => Ok(Classification(if a.nbSamples == 0 then 1 else a.nbSamples, a.scalars, a.groups, a.samples))
  }

  /** The classification loop itself. */
  method DetermineSampleVars(vars: seq<Entry>, nbGroups: nat) returns (r: Result<Classification, ClassifyError>)
    ensures r == Classify(vars, nbGroups)
  {
    var scalars: seq<Entry>, groups: seq<Entry>, samples: seq<Entry> := [], [], [];
    var nbSamples: nat := 0;
    for i := 0 to |vars|
      invariant FoldFrom(Acc(nbSamples, scalars, groups, samples), vars[i..], nbGroups) == FoldFrom(Start, vars, nbGroups)
    {
      assert vars[i..][0] == vars[i] && vars[i..][1..] == vars[i + 1..];
      var key, shape := vars[i].key, vars[i].value.shape;
      if |shape| == 0 {
        scalars := scalars + [vars[i]];
      } else if |shape| == 1 {
        return Err(RankOne(key));
      } else if |shape| == 2 {
        if shape[0] > 1 {
          nbSamples := shape[0];
        } else if shape == [1, nbGroups] {
          groups := groups + [vars[i]];
        } else {
          return Err(BadGroupShape(key, shape));
        }
        if nbSamples != 0 {
          if shape[0] != nbSamples {
            return Err(InconsistentSamples(key, nbSamples, shape[0]));
          } else if shape != [nbSamples, 1] && shape != [nbSamples, nbGroups] {
            return Err(BadSampleShape(key, nbSamples, shape));
          } else {
            samples := samples + [vars[i]];
          }
        }
      } else {
        return Err(TooManyDims(key));
      }
    }
    assert vars[|vars|..] == [];
    if nbSamples == 0 {
      nbSamples := 1;
    }
    return Ok(Classification(nbSamples, scalars, groups, samples));
  }

  // ---------------------------------------------------------------------------
  // Which entries are accepted

  /** A rank-2 entry whose first axis is above 1: it (re)sets the sample count. */
  predicate SetsSampleCount(e: Entry)
  {
    |e.value.shape| == 2 && e.value.shape[0] > 1
  }

  /** Shape (S, 1) or (S, G) for its own first axis S > 1. */
  predicate SampleShaped(e: Entry, nbGroups: nat)
  {
    SetsSampleCount(e) && (e.value.shape[1] == 1 || e.value.shape[1] == nbGroups)
  }

  predicate GroupShaped(e: Entry, nbGroups: nat)
  {
    e.value.shape == [1, nbGroups]
  }

  predicate NoSampleCountBefore(vars: seq<Entry>, i: nat)
    requires i <= |vars|
  {
    forall j :: 0 <= j < i ==> !SetsSampleCount(vars[j])
  }

  /**
   * Entry i passes when the loop reaches it with a sample count already set
   * (countSet) or not: scalars and well-shaped sample tensors always pass, a
   * (1, G) group vector only while no sample count is set.
   */
  predicate AcceptedAfter(countSet: bool, vars: seq<Entry>, i: nat, nbGroups: nat)
    requires i < |vars|
  {
    |vars[i].value.shape| == 0
    || SampleShaped(vars[i], nbGroups)
    || (GroupShaped(vars[i], nbGroups) && !countSet && NoSampleCountBefore(vars, i))
  }

  predicate Accepted(vars: seq<Entry>, i: nat, nbGroups: nat)
    requires i < |vars|
  {
    AcceptedAfter(false, vars, i, nbGroups)
  }

  /** Every entry before position n passes. */
  predicate AcceptedBefore(countSet: bool, vars: seq<Entry>, n: nat, nbGroups: nat)
    requires n <= |vars|
  {
    forall i :: 0 <= i < n ==> AcceptedAfter(countSet, vars, i, nbGroups)
  }

  /** Every entry passes (Accepted at every position). */
  predicate AllAccepted(vars: seq<Entry>, nbGroups: nat)
  {
    AcceptedBefore(false, vars, |vars|, nbGroups)
  }

  /** The sample count is either unset or above one. */
  predicate CountInvariant(acc: Acc)
  {
    acc.nbSamples == 0 || acc.nbSamples > 1
  }

  lemma StepAccepts(acc: Acc, vars: seq<Entry>, nbGroups: nat)
    requires |vars| > 0 && CountInvariant(acc)
    ensures Step(acc, vars[0], nbGroups).Ok? <==> AcceptedAfter(acc.nbSamples != 0, vars, 0, nbGroups)
    ensures Step(acc, vars[0], nbGroups).Ok? ==>
      var next := Step(acc, vars[0], nbGroups).value;
      CountInvariant(next) && (next.nbSamples != 0 <==> acc.nbSamples != 0 || SetsSampleCount(vars[0]))
  {
  }

  lemma ShiftAccepted(countSet: bool, vars: seq<Entry>, i: nat, nbGroups: nat)
    requires 1 <= i < |vars|
    ensures AcceptedAfter(countSet, vars, i, nbGroups)
        <==> AcceptedAfter(countSet || SetsSampleCount(vars[0]), vars[1..], i - 1, nbGroups)
  {
    assert vars[1..][i - 1] == vars[i];
    assert NoSampleCountBefore(vars, i) <==> !SetsSampleCount(vars[0]) && NoSampleCountBefore(vars[1..], i - 1) by {
      if NoSampleCountBefore(vars, i) {
        forall j | 0 <= j < i - 1 ensures !SetsSampleCount(vars[1..][j]) {
          assert vars[1..][j] == vars[j + 1];
        }
      }
      if !SetsSampleCount(vars[0]) && NoSampleCountBefore(vars[1..], i - 1) {
        forall j | 0 <= j < i ensures !SetsSampleCount(vars[j]) {
          if j > 0 { assert vars[j] == vars[1..][j - 1]; }
        }
      }
    }
  }

  lemma {:induction false} FoldOkIff(acc: Acc, vars: seq<Entry>, nbGroups: nat)
    requires CountInvariant(acc)
    ensures FoldFrom(acc, vars, nbGroups).Ok? <==> AcceptedBefore(acc.nbSamples != 0, vars, |vars|, nbGroups)
    decreases |vars|
  {
    if vars != [] {
      var countSet := acc.nbSamples != 0;
      StepAccepts(acc, vars, nbGroups);
      match Step(acc, vars[0], nbGroups)
      case Err(_) =>
      case Ok(next) =>
        FoldOkIff(next, vars[1..], nbGroups);
        forall i | 1 <= i < |vars| {
          ShiftAccepted(countSet, vars, i, nbGroups);
        }
        if AcceptedBefore(next.nbSamples != 0, vars[1..], |vars[1..]|, nbGroups) {
          forall i | 0 <= i < |vars| ensures AcceptedAfter(countSet, vars, i, nbGroups) {
            if i > 0 { assert AcceptedAfter(next.nbSamples != 0, vars[1..], i - 1, nbGroups); }
          }
        } else {
          var i :| 0 <= i < |vars[1..]| && !AcceptedAfter(next.nbSamples != 0, vars[1..], i, nbGroups);
          assert !AcceptedAfter(countSet, vars, i + 1, nbGroups);
        }
    }
  }

  /** Classification succeeds exactly when every entry is accepted. */
  lemma ClassifyOkIff(vars: seq<Entry>, nbGroups: nat)
    ensures Classify(vars, nbGroups).Ok? <==> AllAccepted(vars, nbGroups)
  {
    FoldOkIff(Start, vars, nbGroups);
  }

  /** A rank-1 parameter always makes classification fail. */
  lemma RankOneRejected(vars: seq<Entry>, nbGroups: nat, i: nat)
    requires i < |vars| && |vars[i].value.shape| == 1
    ensures Classify(vars, nbGroups).Err?
  {
    ClassifyOkIff(vars, nbGroups);
    assert !Accepted(vars, i, nbGroups);
  }

  /** A parameter of rank above two always makes classification fail. */
  lemma HighRankRejected(vars: seq<Entry>, nbGroups: nat, i: nat)
    requires i < |vars| && |vars[i].value.shape| > 2
    ensures Classify(vars, nbGroups).Err?
  {
    ClassifyOkIff(vars, nbGroups);
    assert !Accepted(vars, i, nbGroups);
  }

  /** A (1, G) group vector that follows any sample tensor makes classification fail. */
  lemma GroupAfterSampleRejected(vars: seq<Entry>, nbGroups: nat, i: nat, j: nat)
    requires i < j < |vars| && SetsSampleCount(vars[i]) && GroupShaped(vars[j], nbGroups)
    ensures Classify(vars, nbGroups).Err?
  {
    ClassifyOkIff(vars, nbGroups);
    assert !Accepted(vars, j, nbGroups);
  }

  // ---------------------------------------------------------------------------
  // Errors

  lemma {:induction false} FoldErrFirst(acc: Acc, vars: seq<Entry>, nbGroups: nat)
    requires CountInvariant(acc) && FoldFrom(acc, vars, nbGroups).Err?
    ensures exists i :: (0 <= i < |vars| && !AcceptedAfter(acc.nbSamples != 0, vars, i, nbGroups)
      && AcceptedBefore(acc.nbSamples != 0, vars, i, nbGroups)
      && FoldFrom(acc, vars, nbGroups).error.key == vars[i].key)
    decreases |vars|
  {
    var countSet := acc.nbSamples != 0;
    StepAccepts(acc, vars, nbGroups);
    match Step(acc, vars[0], nbGroups)
    case Err(_) =>
      assert !AcceptedAfter(countSet, vars, 0, nbGroups);
    case Ok(next) =>
      FoldErrFirst(next, vars[1..], nbGroups);
      var i :| 0 <= i < |vars[1..]| && !AcceptedAfter(next.nbSamples != 0, vars[1..], i, nbGroups)
        && AcceptedBefore(next.nbSamples != 0, vars[1..], i, nbGroups)
        && FoldFrom(next, vars[1..], nbGroups).error.key == vars[1..][i].key;
      ShiftAccepted(countSet, vars, i + 1, nbGroups);
      forall j | 0 <= j < i + 1 ensures AcceptedAfter(countSet, vars, j, nbGroups) {
        if j > 0 {
          ShiftAccepted(countSet, vars, j, nbGroups);
          assert AcceptedAfter(next.nbSamples != 0, vars[1..], j - 1, nbGroups);
        }
      }
  }

  /** A failed classification reports the first entry that is not accepted, by name. */
  lemma ClassifyErrorNamesFirstRejected(vars: seq<Entry>, nbGroups: nat)
    requires Classify(vars, nbGroups).Err?
    ensures exists i :: (0 <= i < |vars| && !Accepted(vars, i, nbGroups)
      && (forall j :: 0 <= j < i ==> Accepted(vars, j, nbGroups))
      && Classify(vars, nbGroups).error.key == vars[i].key)
  {
    FoldErrFirst(Start, vars, nbGroups);
    var i :| 0 <= i < |vars| && !AcceptedAfter(false, vars, i, nbGroups)
      && AcceptedBefore(false, vars, i, nbGroups)
      && FoldFrom(Start, vars, nbGroups).error.key == vars[i].key;
    assert forall j :: 0 <= j < i ==> Accepted(vars, j, nbGroups);
  }

  // ---------------------------------------------------------------------------
  // The buckets

  datatype Kind = ScalarKind | GroupKind | SampleKind | Rejected

  function KindOf(e: Entry): Kind
  {
    var shape := e.value.shape;
    if |shape| == 0 then ScalarKind
    else if |shape| == 2 && shape[0] > 1 then SampleKind
    else if |shape| == 2 then GroupKind
    else Rejected
  }

  /** The entries of the given kind, in the dictionary's order. */
  function Filter(vars: seq<Entry>, k: Kind): (r: seq<Entry>)
    ensures forall e :: e in r ==> e in vars && KindOf(e) == k
  {
    if vars == [] then []
    else IfKind(vars[0], k) + Filter(vars[1..], k)
  }

  /** The entry as a one-element sequence when it has kind k, else nothing. */
  function IfKind(e: Entry, k: Kind): seq<Entry>
  {
    if KindOf(e) == k then [e] else []
  }

  lemma StepBuckets(acc: Acc, e: Entry, nbGroups: nat)
    requires CountInvariant(acc) && Step(acc, e, nbGroups).Ok?
    ensures var next := Step(acc, e, nbGroups).value;
      next.scalars == acc.scalars + IfKind(e, ScalarKind)
      && next.groups == acc.groups + IfKind(e, GroupKind)
      && next.samples == acc.samples + IfKind(e, SampleKind)
  {
  }

  lemma {:induction false} FoldBuckets(acc: Acc, vars: seq<Entry>, nbGroups: nat)
    requires CountInvariant(acc) && FoldFrom(acc, vars, nbGroups).Ok?
    ensures var a := FoldFrom(acc, vars, nbGroups).value;
      a.scalars == acc.scalars + Filter(vars, ScalarKind)
      && a.groups == acc.groups + Filter(vars, GroupKind)
      && a.samples == acc.samples + Filter(vars, SampleKind)
    decreases |vars|
  {
    if vars != [] {
      StepAccepts(acc, vars, nbGroups);
      var next := Step(acc, vars[0], nbGroups).value;
      StepBuckets(acc, vars[0], nbGroups);
      FoldBuckets(next, vars[1..], nbGroups);
      assert FoldFrom(acc, vars, nbGroups) == FoldFrom(next, vars[1..], nbGroups);
      BucketStep(acc.scalars, vars, ScalarKind);
      BucketStep(acc.groups, vars, GroupKind);
      BucketStep(acc.samples, vars, SampleKind);
    }
  }

  lemma BucketStep(bucket: seq<Entry>, vars: seq<Entry>, k: Kind)
    requires vars != []
    ensures (bucket + IfKind(vars[0], k)) + Filter(vars[1..], k) == bucket + Filter(vars, k)
  {
    assert Filter(vars, k) == IfKind(vars[0], k) + Filter(vars[1..], k);
  }

  lemma IfKindPartition(e: Entry)
    requires KindOf(e) != Rejected
    ensures multiset(IfKind(e, ScalarKind)) + multiset(IfKind(e, GroupKind)) + multiset(IfKind(e, SampleKind)) == multiset([e])
  {
  }

  lemma MultisetOfSix(ps: seq<Entry>, fs: seq<Entry>, pg: seq<Entry>, fg: seq<Entry>, pa: seq<Entry>, fa: seq<Entry>)
    ensures multiset((ps + fs) + (pg + fg) + (pa + fa))
         == multiset(ps) + multiset(pg) + multiset(pa) + multiset(fs + fg + fa)
  {
  }

  lemma {:induction false} FilterPartition(vars: seq<Entry>)
    requires forall i :: 0 <= i < |vars| ==> KindOf(vars[i]) != Rejected
    ensures multiset(Filter(vars, ScalarKind) + Filter(vars, GroupKind) + Filter(vars, SampleKind)) == multiset(vars)
    decreases |vars|
  {
    if vars != [] {
      var e, rest := vars[0], vars[1..];
      assert forall i :: 0 <= i < |rest| ==> rest[i] == vars[i + 1];
      FilterPartition(rest);
      assert vars == [e] + rest;
      var fs, fg, fa := Filter(rest, ScalarKind), Filter(rest, GroupKind), Filter(rest, SampleKind);
      var ps, pg, pa := IfKind(e, ScalarKind), IfKind(e, GroupKind), IfKind(e, SampleKind);
      assert KindOf(e) != Rejected by { assert vars[0] == e; }
      IfKindPartition(e);
      assert Filter(vars, ScalarKind) == ps + fs;
      assert Filter(vars, GroupKind) == pg + fg;
      assert Filter(vars, SampleKind) == pa + fa;
      MultisetOfSix(ps, fs, pg, fg, pa, fa);
      assert multiset(vars) == multiset([e]) + multiset(rest);
    }
  }

  /**
   * On success every entry lands, unchanged, in the bucket of its kind:
   * rank 0 in the scalars, rank 2 with first axis 1 in the groups, rank 2 with
   * first axis above 1 in the samples; together the buckets hold exactly the
   * entries given.
   */
  lemma ClassifyBuckets(vars: seq<Entry>, nbGroups: nat)
    requires Classify(vars, nbGroups).Ok?
    ensures var c := Classify(vars, nbGroups).value;
      c.scalars == Filter(vars, ScalarKind)
      && c.groups == Filter(vars, GroupKind)
      && c.samples == Filter(vars, SampleKind)
      && multiset(c.scalars + c.groups + c.samples) == multiset(vars)
  {
    FoldBuckets(Start, vars, nbGroups);
    ClassifyOkIff(vars, nbGroups);
    forall i | 0 <= i < |vars| ensures KindOf(vars[i]) != Rejected {
      assert Accepted(vars, i, nbGroups);
    }
    FilterPartition(vars);
  }

  // ---------------------------------------------------------------------------
  // The sample count

  /** The first axis of the last entry that sets the sample count (0 when none does). */
  function LastCount(vars: seq<Entry>): nat
  {
    if vars == [] then 0
    else
      var later := LastCount(vars[1..]);
      if later != 0 then later
      else if SetsSampleCount(vars[0]) then vars[0].value.shape[0]
      else 0
  }

  lemma {:induction false} FoldCount(acc: Acc, vars: seq<Entry>, nbGroups: nat)
    requires CountInvariant(acc) && FoldFrom(acc, vars, nbGroups).Ok?
    ensures FoldFrom(acc, vars, nbGroups).value.nbSamples
         == if LastCount(vars) != 0 then LastCount(vars) else acc.nbSamples
    decreases |vars|
  {
    if vars != [] {
      StepAccepts(acc, vars, nbGroups);
      var next := Step(acc, vars[0], nbGroups).value;
      FoldCount(next, vars[1..], nbGroups);
    }
  }

  lemma {:induction false} LastCountIsLast(vars: seq<Entry>)
    ensures NoSampleCountBefore(vars, |vars|) ==> LastCount(vars) == 0
    ensures forall i :: (0 <= i < |vars| && SetsSampleCount(vars[i])
      && (forall j :: i < j < |vars| ==> !SetsSampleCount(vars[j]))) ==> LastCount(vars) == vars[i].value.shape[0]
    decreases |vars|
  {
    if vars != [] {
      var rest := vars[1..];
      LastCountIsLast(rest);
      assert forall j :: 0 <= j < |rest| ==> rest[j] == vars[j + 1];
      forall i | 0 <= i < |vars| && SetsSampleCount(vars[i]) && (forall j :: i < j < |vars| ==> !SetsSampleCount(vars[j]))
        ensures LastCount(vars) == vars[i].value.shape[0]
      {
        assert NoSampleCountBefore(rest, |rest|) ==> LastCount(rest) == 0;
        if i == 0 {
          assert NoSampleCountBefore(rest, |rest|);
        } else {
          assert SetsSampleCount(rest[i - 1]);
        }
      }
    }
  }

  /** The sample count Classify reports: the first axis of the last sample-setting entry, or 1. */
  function SampleCount(vars: seq<Entry>): nat
  {
    if LastCount(vars) == 0 then 1 else LastCount(vars)
  }

  /**
   * The returned count is 1 when no entry has first axis above 1, and otherwise
   * the first axis of the last such entry.
   */
  lemma ClassifyNbSamples(vars: seq<Entry>, nbGroups: nat)
    requires Classify(vars, nbGroups).Ok?
    ensures Classify(vars, nbGroups).value.nbSamples == SampleCount(vars)
    ensures NoSampleCountBefore(vars, |vars|) ==> Classify(vars, nbGroups).value.nbSamples == 1
    ensures forall i :: (0 <= i < |vars| && SetsSampleCount(vars[i])
      && (forall j :: i < j < |vars| ==> !SetsSampleCount(vars[j]))) ==>
        Classify(vars, nbGroups).value.nbSamples == vars[i].value.shape[0]
  {
    FoldCount(Start, vars, nbGroups);
    LastCountIsLast(vars);
  }

  /** Two sample tensors with 2 and 3 samples are accepted together; the count is 3. */
  lemma InconsistentCountsAccepted()
    ensures var vars := [Entry("beta", Tensor([2, 1], [0.5, 0.6])), Entry("prop_as", Tensor([3, 1], [0.1, 0.2, 0.3]))];
      Classify(vars, 1) == Ok(Classification(3, [], [], vars))
  {
    var a, b := Entry("beta", Tensor([2, 1], [0.5, 0.6])), Entry("prop_as", Tensor([3, 1], [0.1, 0.2, 0.3]));
    var vars := [a, b];
    assert Step(Start, a, 1).value == Acc(2, [], [], [a]);
    assert Step(Acc(2, [], [], [a]), b, 1).value == Acc(3, [], [], [a, b]);
    assert vars[1..] == [b] && [b][1..] == [];
    assert FoldFrom(Start, vars, 1) == FoldFrom(Acc(2, [], [], [a]), [b], 1);
    assert FoldFrom(Acc(2, [], [], [a]), [b], 1) == FoldFrom(Acc(3, [], [], [a, b]), [], 1);
  }

  /** No key occurs twice, as in the Python dictionaries the entries come from. */
  predicate DistinctKeys(vars: seq<Entry>)
  {
    forall j, j' :: 0 <= j < j' < |vars| ==> vars[j].key != vars[j'].key
  }

  /** A bucket keeps the keys of the entries it was filtered from distinct. */
  lemma {:induction false} FilterDistinct(vars: seq<Entry>, k: Kind)
    requires DistinctKeys(vars)
    ensures DistinctKeys(Filter(vars, k))
    decreases |vars|
  {
    if vars != [] {
      FilterDistinct(vars[1..], k);
      var rest := Filter(vars[1..], k);
      forall e | e in rest ensures e.key != vars[0].key {
        var j :| 0 <= j < |vars[1..]| && vars[1..][j] == e;
        assert vars[j + 1] == e;
      }
    }
  }
}
