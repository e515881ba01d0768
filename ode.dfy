/**
 * `_get_seird_from_flat_y` and `_ode`: the right-hand side of the SEIRD
 * system for every (sample, group) cell.
 *
 * The flat state holds `nb_states` = 16 values per cell, of which the first 14
 * are the compartments; the derivative holds 14 values per cell, in the order
 * of the concatenation at lines 233-248. Cell c is (sample c / nb_groups,
 * group c % nb_groups). Parameters are looked up per cell with numpy
 * broadcasting against the (nb_samples, nb_groups) grid.
 */
module Ode {
  import opened Tensors

  /** Values per cell in the flat state, and compartments per cell in the derivative. */
  const NbStates: nat := 16
  const NbCompartments: nat := 14

  /** The 14 compartments of one (sample, group) cell, in the order of lines 355-368. */
  datatype Cell = Cell(
    s: real, e: real, iAs: real, iM: real, iS: real, iIH: real, iIIcu: real,
    iH: real, iIcu: real, rAs: real, rM: real, rH: real, rIcu: real, dIcu: real)

  /** The compartments in their flat order. */
  function ToSeq(x: Cell): (r: seq<real>)
    ensures |r| == NbCompartments
  {
    [x.s, x.e, x.iAs, x.iM, x.iS, x.iIH, x.iIIcu, x.iH, x.iIcu, x.rAs, x.rM, x.rH, x.rIcu, x.dIcu]
  }

  /** The number of people in a cell. */
  function Total(x: Cell): real
  {
    x.s + x.e + x.iAs + x.iM + x.iS + x.iIH + x.iIIcu + x.iH + x.iIcu + x.rAs + x.rM + x.rH + x.rIcu + x.dIcu
  }

  lemma TotalIsSum(x: Cell)
    ensures Sum(ToSeq(x)) == Total(x)
  {
    var back := [x.iH, x.iIcu, x.rAs, x.rM, x.rH, x.rIcu, x.dIcu];
    Sum7(x.iH, x.iIcu, x.rAs, x.rM, x.rH, x.rIcu, x.dIcu, []);
    assert back + [] == back;
    Sum7(x.s, x.e, x.iAs, x.iM, x.iS, x.iIH, x.iIIcu, back);
    assert ToSeq(x) == [x.s, x.e, x.iAs, x.iM, x.iS, x.iIH, x.iIIcu] + back;
  }

  lemma Sum7(a: real, b: real, c: real, d: real, e: real, f: real, g: real, rest: seq<real>)
    ensures Sum([a, b, c, d, e, f, g] + rest) == a + b + c + d + e + f + g + Sum(rest)
  {
    var s := [a, b, c, d, e, f, g] + rest;
    assert s[7..] == rest;
    assert Sum(s[6..]) == g + Sum(s[7..]);
    assert Sum(s[5..]) == f + Sum(s[6..]);
    assert Sum(s[4..]) == e + Sum(s[5..]);
    assert Sum(s[3..]) == d + Sum(s[4..]);
    assert Sum(s[2..]) == c + Sum(s[3..]);
    assert Sum(s[1..]) == b + Sum(s[2..]);
  }

  /** `y.reshape(nb_samples, nb_groups, nb_states)` at cell c, first 14 slots (lines 353-368). */
  function CellAt(y: seq<real>, c: nat): (x: Cell)
    requires NbStates * c + NbStates <= |y|
    ensures ToSeq(x) == y[NbStates * c..NbStates * c + NbCompartments]
  {
    var b := NbStates * c;
    Cell(y[b], y[b + 1], y[b + 2], y[b + 3], y[b + 4], y[b + 5], y[b + 6],
         y[b + 7], y[b + 8], y[b + 9], y[b + 10], y[b + 11], y[b + 12], y[b + 13])
  }

  lemma CellBound(c: nat, cells: nat)
    requires c < cells
    ensures NbStates * c + NbStates <= NbStates * cells
  {
  }

  // ---------------------------------------------------------------------------
  // Parameters

  /** The model's attributes that `_ode` reads, with infectious_func(t) already evaluated. */
  datatype OdeParams = OdeParams(
    nbSamples: nat, nbGroups: nat,
    beta: Array, relBetaAs: Array, propAs: Array, propM: Array, propSToH: Array,
    timeInc: Array, timeInfectious: Array, timeSToH: Array, timeSToC: Array,
    timeHToC: Array, timeHToR: Array, timeCToR: Array, timeCToD: Array,
    fHospIcuProp: Array, fIcuDProp: Array, infectious: Array, n: seq<real>)

  /** Every parameter broadcasts against the (nb_samples, nb_groups) grid and n has one value per sample. */
  predicate Fits(p: OdeParams)
  {
    var S, G := p.nbSamples, p.nbGroups;
    |p.n| == S
    && FitsGrid(p.beta, S, G) && FitsGrid(p.relBetaAs, S, G) && FitsGrid(p.propAs, S, G)
    && FitsGrid(p.propM, S, G) && FitsGrid(p.propSToH, S, G) && FitsGrid(p.timeInc, S, G)
    && FitsGrid(p.timeInfectious, S, G) && FitsGrid(p.timeSToH, S, G) && FitsGrid(p.timeSToC, S, G)
    && FitsGrid(p.timeHToC, S, G) && FitsGrid(p.timeHToR, S, G) && FitsGrid(p.timeCToR, S, G)
    && FitsGrid(p.timeCToD, S, G) && FitsGrid(p.fHospIcuProp, S, G) && FitsGrid(p.fIcuDProp, S, G)
    && FitsGrid(p.infectious, S, G)
  }

  /** The parameter values seen by one cell. */
  datatype Rates = Rates(
    beta: real, relBetaAs: real, propAs: real, propM: real, propSToH: real,
    timeInc: real, timeInfectious: real, timeSToH: real, timeSToC: real,
    timeHToC: real, timeHToR: real, timeCToR: real, timeCToD: real,
    fHospIcuProp: real, fIcuDProp: real, infectious: real, n: real)

  /** The broadcast value of every parameter at sample i, group g. */
  function RatesAt(p: OdeParams, i: nat, g: nat): Rates
    requires Fits(p) && i < p.nbSamples && g < p.nbGroups
  {
    var S, G := p.nbSamples, p.nbGroups;
    Rates(At(p.beta, S, G, i, g), At(p.relBetaAs, S, G, i, g), At(p.propAs, S, G, i, g),
          At(p.propM, S, G, i, g), At(p.propSToH, S, G, i, g), At(p.timeInc, S, G, i, g),
          At(p.timeInfectious, S, G, i, g), At(p.timeSToH, S, G, i, g), At(p.timeSToC, S, G, i, g),
          At(p.timeHToC, S, G, i, g), At(p.timeHToR, S, G, i, g), At(p.timeCToR, S, G, i, g),
          At(p.timeCToD, S, G, i, g), At(p.fHospIcuProp, S, G, i, g), At(p.fIcuDProp, S, G, i, g),
          At(p.infectious, S, G, i, g), p.n[i])
  }

  /** The rates of every cell, cell c = i * nb_groups + g. */
  function RatesGrid(p: OdeParams): (r: seq<Rates>)
    requires Fits(p)
    ensures |r| == p.nbSamples * p.nbGroups
  {
    seq(p.nbSamples * p.nbGroups, c requires 0 <= c < p.nbSamples * p.nbGroups =>
      DivModBound(c, p.nbSamples, p.nbGroups);
      RatesAt(p, c / p.nbGroups, c % p.nbGroups))
  }

  lemma RatesGridAt(p: OdeParams, i: nat, g: nat)
    requires Fits(p) && i < p.nbSamples && g < p.nbGroups
    ensures i * p.nbGroups + g < |RatesGrid(p)|
    ensures RatesGrid(p)[i * p.nbGroups + g] == RatesAt(p, i, g)
  {
    FlatIndexBound(i, g, p.nbSamples, p.nbGroups);
    DivModUnique(i, g, p.nbGroups);
  }

  /** Every divisor in lines 216-231 is non-zero for this cell. */
  predicate NonZeroDivisors(r: Rates)
  {
    r.n != 0.0 && r.timeInc != 0.0 && r.timeInfectious != 0.0
    && r.timeSToH - r.timeInfectious != 0.0 && r.timeSToC - r.timeInfectious != 0.0
    && r.timeHToC != 0.0 && r.timeHToR != 0.0 && r.timeCToR != 0.0 && r.timeCToD != 0.0
  }

  /** A grid of rates and a flat state of matching sizes, with no division by zero. */
  predicate WellFormed(nbSamples: nat, nbGroups: nat, rates: seq<Rates>, y: seq<real>)
  {
    |rates| == nbSamples * nbGroups && |y| == NbStates * (nbSamples * nbGroups)
    && forall c :: 0 <= c < |rates| ==> NonZeroDivisors(rates[c])
  }

  // ---------------------------------------------------------------------------
  // The right-hand side

  /** The infectious contribution of one cell: `rel_beta_as * i_as + i_m + i_s`. */
  function Infectious(r: Rates, x: Cell): real
  {
    r.relBetaAs * x.iAs + x.iM + x.iS
  }

  /** The sum over groups 0..g-1 of sample i's infectious contributions (line 216, `axis=1`). */
  function PressureUpTo(nbSamples: nat, nbGroups: nat, rates: seq<Rates>, y: seq<real>, i: nat, g: nat): real
    requires WellFormed(nbSamples, nbGroups, rates, y) && i < nbSamples && g <= nbGroups
  {
    if g == 0 then 0.0
    else
      FlatIndexBound(i, g - 1, nbSamples, nbGroups);
      var c := i * nbGroups + (g - 1);
      CellBound(c, nbSamples * nbGroups);
      PressureUpTo(nbSamples, nbGroups, rates, y, i, g - 1) + Infectious(rates[c], CellAt(y, c))
  }

  function Pressure(nbSamples: nat, nbGroups: nat, rates: seq<Rates>, y: seq<real>, i: nat): real
    requires WellFormed(nbSamples, nbGroups, rates, y) && i < nbSamples
  {
    PressureUpTo(nbSamples, nbGroups, rates, y, i, nbGroups)
  }

  /** Lines 210-231 for one cell, given its sample's summed infectious pressure. */
  function CellDerivative(r: Rates, x: Cell, pressure: real): Cell
    requires NonZeroDivisors(r)
  {
    var infection := 1.0 / r.n * r.infectious * r.beta * pressure * x.s;
    var incubated := x.e / r.timeInc;
    var infSProp := 1.0 - r.propAs - r.propM;
    var timeIToH := r.timeSToH - r.timeInfectious;
    var timeIToIcu := r.timeSToC - r.timeInfectious;
    Cell(
      - infection,
      infection - incubated,
      r.propAs * incubated - x.iAs / r.timeInfectious,
      r.propM * incubated - x.iM / r.timeInfectious,
      infSProp * incubated - x.iS / r.timeInfectious,
      r.propSToH * x.iS / r.timeInfectious - x.iIH / timeIToH,
      (1.0 - r.propSToH) * x.iS / r.timeInfectious - x.iIIcu / timeIToIcu,
      x.iIH / timeIToH - r.fHospIcuProp * x.iH / r.timeHToC - (1.0 - r.fHospIcuProp) * x.iH / r.timeHToR,
      r.fHospIcuProp * x.iH / r.timeHToC + x.iIIcu / timeIToIcu
        - r.fIcuDProp * x.iIcu / r.timeCToD - (1.0 - r.fIcuDProp) * x.iIcu / r.timeCToR,
      x.iAs / r.timeInfectious,
      x.iM / r.timeInfectious,
      (1.0 - r.fHospIcuProp) * x.iH / r.timeHToR,
      (1.0 - r.fIcuDProp) * x.iIcu / r.timeCToR,
      r.fIcuDProp * x.iIcu / r.timeCToD)
  }

  /** The derivative of cell c, whose sample is c / nb_groups. */
  function CellDerivativeAt(nbSamples: nat, nbGroups: nat, rates: seq<Rates>, y: seq<real>, c: nat): Cell
    requires WellFormed(nbSamples, nbGroups, rates, y) && c < nbSamples * nbGroups
  {
    DivModBound(c, nbSamples, nbGroups);
    CellBound(c, nbSamples * nbGroups);
    CellDerivative(rates[c], CellAt(y, c), Pressure(nbSamples, nbGroups, rates, y, c / nbGroups))
  }

  /** The cells' compartments one after the other (`concatenate(..., axis=-1).reshape(-1)`). */
  function Flatten(cells: seq<Cell>): (r: seq<real>)
    ensures |r| == NbCompartments * |cells|
  {
    if cells == [] then [] else ToSeq(cells[0]) + Flatten(cells[1..])
  }

  function DerivativeCells(nbSamples: nat, nbGroups: nat, rates: seq<Rates>, y: seq<real>): (d: seq<Cell>)
    requires WellFormed(nbSamples, nbGroups, rates, y)
    ensures |d| == nbSamples * nbGroups
  {
    seq(nbSamples * nbGroups, c requires 0 <= c < nbSamples * nbGroups => CellDerivativeAt(nbSamples, nbGroups, rates, y, c))
  }

  /** The derivative of the whole flat state, 14 values per cell. */
  function Derivative(nbSamples: nat, nbGroups: nat, rates: seq<Rates>, y: seq<real>): (dydt: seq<real>)
    requires WellFormed(nbSamples, nbGroups, rates, y)
    ensures |dydt| == NbCompartments * (nbSamples * nbGroups)
  {
    Flatten(DerivativeCells(nbSamples, nbGroups, rates, y))
  }

  /** `_ode(y, t)`, with infectious_func(t) inside p. */
  function OdeRhs(p: OdeParams, y: seq<real>): seq<real>
    requires Fits(p) && WellFormed(p.nbSamples, p.nbGroups, RatesGrid(p), y)
  {
    Derivative(p.nbSamples, p.nbGroups, RatesGrid(p), y)
  }

  // ---------------------------------------------------------------------------
  // Layout

  lemma {:induction false} FlattenAt(cells: seq<Cell>, c: nat, k: nat)
    requires c < |cells| && k < NbCompartments
    ensures NbCompartments * c + k < |Flatten(cells)|
    ensures Flatten(cells)[NbCompartments * c + k] == ToSeq(cells[c])[k]
    decreases c
  {
    if c > 0 {
      FlattenAt(cells[1..], c - 1, k);
      assert NbCompartments * c + k == NbCompartments + (NbCompartments * (c - 1) + k);
    }
  }

  /**
   * Value k of cell (i, g) in the derivative sits at (i * nb_groups + g) * 14 + k
   * and is compartment k of that cell's derivative, computed from slot k of the
   * cell in the 16-wide state and the pressure of sample i.
   */
  lemma DerivativeLayout(nbSamples: nat, nbGroups: nat, rates: seq<Rates>, y: seq<real>, i: nat, g: nat, k: nat)
    requires WellFormed(nbSamples, nbGroups, rates, y) && i < nbSamples && g < nbGroups && k < NbCompartments
    ensures i * nbGroups + g < nbSamples * nbGroups
    ensures NbStates * (i * nbGroups + g) + NbStates <= |y|
    ensures NbCompartments * (i * nbGroups + g) + k < |Derivative(nbSamples, nbGroups, rates, y)|
    ensures Derivative(nbSamples, nbGroups, rates, y)[NbCompartments * (i * nbGroups + g) + k]
         == ToSeq(CellDerivative(rates[i * nbGroups + g], CellAt(y, i * nbGroups + g),
                                 Pressure(nbSamples, nbGroups, rates, y, i)))[k]
  {
    var c := i * nbGroups + g;
    FlatIndexBound(i, g, nbSamples, nbGroups);
    CellBound(c, nbSamples * nbGroups);
    FlattenAt(DerivativeCells(nbSamples, nbGroups, rates, y), c, k);
    DivModUnique(i, g, nbGroups);
  }

  // ---------------------------------------------------------------------------
  // Conservation

  /** The flows of one cell only move people between its compartments. */
  lemma CellConservation(r: Rates, x: Cell, pressure: real)
    requires NonZeroDivisors(r)
    ensures Total(CellDerivative(r, x, pressure)) == 0.0
  {
    var d := CellDerivative(r, x, pressure);
    var incubated := x.e / r.timeInc;
    var toHosp := x.iIH / (r.timeSToH - r.timeInfectious);
    var toIcu := x.iIIcu / (r.timeSToC - r.timeInfectious);
    var leaveS := x.iS / r.timeInfectious;
    assert d.s + d.e == - incubated;
    assert (r.propAs + r.propM + (1.0 - r.propAs - r.propM)) * incubated == incubated;
    assert d.iAs + d.iM + d.iS == incubated - x.iAs / r.timeInfectious - x.iM / r.timeInfectious - leaveS;
    assert r.propSToH * x.iS / r.timeInfectious + (1.0 - r.propSToH) * x.iS / r.timeInfectious == leaveS;
    assert d.iIH + d.iIIcu == leaveS - toHosp - toIcu;
    assert d.iH + d.rH == toHosp - r.fHospIcuProp * x.iH / r.timeHToC;
    assert d.iIcu + d.rIcu + d.dIcu == r.fHospIcuProp * x.iH / r.timeHToC + toIcu;
  }

  lemma {:induction false} FlattenSumZero(cells: seq<Cell>)
    requires forall c :: 0 <= c < |cells| ==> Total(cells[c]) == 0.0
    ensures Sum(Flatten(cells)) == 0.0
    decreases |cells|
  {
    if cells != [] {
      FlattenSumZero(cells[1..]);
      TotalIsSum(cells[0]);
      SumConcat(ToSeq(cells[0]), Flatten(cells[1..]));
    }
  }

  lemma {:induction false} FlattenSlice(cells: seq<Cell>, a: nat, b: nat)
    requires a <= b <= |cells|
    ensures NbCompartments * b <= |Flatten(cells)|
    ensures Flatten(cells)[NbCompartments * a..NbCompartments * b] == Flatten(cells[a..b])
    decreases b - a
  {
    var whole := Flatten(cells);
    if a < b {
      FlattenSlice(cells, a + 1, b);
      assert cells[a..b][1..] == cells[a + 1..b];
      assert cells[a..b][0] == cells[a];
      forall k | 0 <= k < NbCompartments
        ensures whole[NbCompartments * a + k] == ToSeq(cells[a])[k]
      {
        FlattenAt(cells, a, k);
      }
      var lo, mid, hi := NbCompartments * a, NbCompartments * (a + 1), NbCompartments * b;
      assert mid == lo + NbCompartments;
      assert whole[lo..mid] == ToSeq(cells[a]);
      assert whole[lo..hi] == whole[lo..mid] + whole[mid..hi];
    } else {
      assert cells[a..b] == [];
    }
  }

  lemma AllCellsConserve(nbSamples: nat, nbGroups: nat, rates: seq<Rates>, y: seq<real>)
    requires WellFormed(nbSamples, nbGroups, rates, y)
    ensures var d := DerivativeCells(nbSamples, nbGroups, rates, y);
      forall c :: 0 <= c < |d| ==> Total(d[c]) == 0.0
  {
    var d := DerivativeCells(nbSamples, nbGroups, rates, y);
    forall c | 0 <= c < |d| ensures Total(d[c]) == 0.0 {
      DivModBound(c, nbSamples, nbGroups);
      CellBound(c, nbSamples * nbGroups);
      CellConservation(rates[c], CellAt(y, c), Pressure(nbSamples, nbGroups, rates, y, c / nbGroups));
    }
  }

  /**
   * Within every sample the derivatives over all groups and compartments sum to
   * zero: `_ode` conserves each sample's population.
   */
  lemma SampleConservation(nbSamples: nat, nbGroups: nat, rates: seq<Rates>, y: seq<real>, i: nat)
    requires WellFormed(nbSamples, nbGroups, rates, y) && i < nbSamples
    ensures NbCompartments * (i * nbGroups + nbGroups) <= |Derivative(nbSamples, nbGroups, rates, y)|
    ensures Sum(Derivative(nbSamples, nbGroups, rates, y)[NbCompartments * (i * nbGroups)..NbCompartments * (i * nbGroups + nbGroups)]) == 0.0
  {
    var d := DerivativeCells(nbSamples, nbGroups, rates, y);
    SampleBlockBound(nbSamples, nbGroups, i);
    AllCellsConserve(nbSamples, nbGroups, rates, y);
    BlockSumZero(d, i * nbGroups, i * nbGroups + nbGroups);
  }

  /** Any run of conserving cells has flattened derivatives summing to zero. */
  lemma BlockSumZero(cells: seq<Cell>, lo: nat, hi: nat)
    requires lo <= hi <= |cells|
    requires forall c :: 0 <= c < |cells| ==> Total(cells[c]) == 0.0
    ensures NbCompartments * hi <= |Flatten(cells)|
    ensures Sum(Flatten(cells)[NbCompartments * lo..NbCompartments * hi]) == 0.0
  {
    FlattenSlice(cells, lo, hi);
    var block := cells[lo..hi];
    assert forall c :: 0 <= c < |block| ==> block[c] == cells[lo + c];
    FlattenSumZero(block);
  }

  lemma SampleBlockBound(nbSamples: nat, nbGroups: nat, i: nat)
    requires i < nbSamples
    ensures i * nbGroups + nbGroups <= nbSamples * nbGroups
  {
    assert i * nbGroups + nbGroups == (i + 1) * nbGroups;
    MulMonotone(i + 1, nbSamples, nbGroups);
  }

  /** Over all samples and groups the derivative sums to zero. */
  lemma DerivativeSumZero(nbSamples: nat, nbGroups: nat, rates: seq<Rates>, y: seq<real>)
    requires WellFormed(nbSamples, nbGroups, rates, y)
    ensures Sum(Derivative(nbSamples, nbGroups, rates, y)) == 0.0
  {
    AllCellsConserve(nbSamples, nbGroups, rates, y);
    FlattenSumZero(DerivativeCells(nbSamples, nbGroups, rates, y));
  }

  // ---------------------------------------------------------------------------
  // Signs of the flows

  /** Rates that make physical sense. */
  predicate Meaningful(r: Rates)
  {
    NonZeroDivisors(r) && r.n > 0.0 && r.beta >= 0.0 && r.infectious >= 0.0 && r.relBetaAs >= 0.0
    && r.timeInfectious > 0.0 && r.timeHToR > 0.0 && r.timeCToR > 0.0 && r.timeCToD > 0.0
    && 0.0 <= r.fHospIcuProp <= 1.0 && 0.0 <= r.fIcuDProp <= 1.0
  }

  /** The compartments that flows leave are non-negative. */
  predicate NonNegativeCell(x: Cell)
  {
    x.s >= 0.0 && x.e >= 0.0 && x.iAs >= 0.0 && x.iM >= 0.0 && x.iS >= 0.0 && x.iIH >= 0.0
    && x.iIIcu >= 0.0 && x.iH >= 0.0 && x.iIcu >= 0.0
  }

  /** Every cell of sample i has meaningful rates and non-negative compartments. */
  predicate SampleMeaningful(nbGroups: nat, rates: seq<Rates>, y: seq<real>, i: nat)
  {
    forall g :: 0 <= g < nbGroups ==> CellMeaningful(rates, y, CellOf(nbGroups, i, g))
  }

  /** The flat index of cell (i, g). */
  function CellOf(nbGroups: nat, i: nat, g: nat): nat
  {
    i * nbGroups + g
  }

  predicate CellMeaningful(rates: seq<Rates>, y: seq<real>, c: nat)
  {
    c < |rates| && NbStates * c + NbStates <= |y| && Meaningful(rates[c]) && NonNegativeCell(CellAt(y, c))
  }

  lemma {:induction false} PressureNonNegative(nbSamples: nat, nbGroups: nat, rates: seq<Rates>, y: seq<real>, i: nat, g: nat)
    requires WellFormed(nbSamples, nbGroups, rates, y) && i < nbSamples && g <= nbGroups
    requires SampleMeaningful(nbGroups, rates, y, i)
    ensures PressureUpTo(nbSamples, nbGroups, rates, y, i, g) >= 0.0
    decreases g
  {
    if g > 0 {
      PressureNonNegative(nbSamples, nbGroups, rates, y, i, g - 1);
      var c := i * nbGroups + (g - 1);
      assert CellMeaningful(rates, y, CellOf(nbGroups, i, g - 1));
      assert rates[c].relBetaAs * CellAt(y, c).iAs >= 0.0;
    }
  }

  /**
   * With meaningful rates, non-negative compartments and non-negative pressure,
   * susceptibles never increase and the recovered and dead compartments never
   * decrease.
   */
  lemma FlowSigns(r: Rates, x: Cell, pressure: real)
    requires Meaningful(r) && NonNegativeCell(x) && pressure >= 0.0
    ensures CellDerivative(r, x, pressure).s <= 0.0
    ensures CellDerivative(r, x, pressure).rAs >= 0.0 && CellDerivative(r, x, pressure).rM >= 0.0
    ensures CellDerivative(r, x, pressure).rH >= 0.0 && CellDerivative(r, x, pressure).rIcu >= 0.0
    ensures CellDerivative(r, x, pressure).dIcu >= 0.0
  {
    var a := 1.0 / r.n * r.infectious;
    assert a >= 0.0;
    var b := a * r.beta;
    assert b >= 0.0;
    var c := b * pressure;
    assert c >= 0.0;
    assert c * x.s >= 0.0;
    assert (1.0 - r.fHospIcuProp) * x.iH >= 0.0;
    assert (1.0 - r.fIcuDProp) * x.iIcu >= 0.0;
    assert r.fIcuDProp * x.iIcu >= 0.0;
  }

  /** In a meaningful sample the derivative of every susceptible compartment is at most 0. */
  lemma SusceptibleNonIncreasing(nbSamples: nat, nbGroups: nat, rates: seq<Rates>, y: seq<real>, i: nat, g: nat)
    requires WellFormed(nbSamples, nbGroups, rates, y) && i < nbSamples && g < nbGroups
    requires SampleMeaningful(nbGroups, rates, y, i)
    ensures NbCompartments * (i * nbGroups + g) < |Derivative(nbSamples, nbGroups, rates, y)|
    ensures Derivative(nbSamples, nbGroups, rates, y)[NbCompartments * (i * nbGroups + g)] <= 0.0
  {
    DerivativeLayout(nbSamples, nbGroups, rates, y, i, g, 0);
    CellSusceptibleSign(nbSamples, nbGroups, rates, y, i, g);
  }

  lemma CellSusceptibleSign(nbSamples: nat, nbGroups: nat, rates: seq<Rates>, y: seq<real>, i: nat, g: nat)
    requires WellFormed(nbSamples, nbGroups, rates, y) && i < nbSamples && g < nbGroups
    requires SampleMeaningful(nbGroups, rates, y, i)
    ensures i * nbGroups + g < |rates| && NbStates * (i * nbGroups + g) + NbStates <= |y|
    ensures ToSeq(CellDerivative(rates[i * nbGroups + g], CellAt(y, i * nbGroups + g),
                                 Pressure(nbSamples, nbGroups, rates, y, i)))[0] <= 0.0
  {
    PressureNonNegative(nbSamples, nbGroups, rates, y, i, nbGroups);
    var c := i * nbGroups + g;
    assert CellMeaningful(rates, y, CellOf(nbGroups, i, g));
    FlowSigns(rates[c], CellAt(y, c), Pressure(nbSamples, nbGroups, rates, y, i));
    ToSeqHead(CellDerivative(rates[c], CellAt(y, c), Pressure(nbSamples, nbGroups, rates, y, i)));
  }

  lemma ToSeqHead(x: Cell)
    ensures ToSeq(x)[0] == x.s
  {
  }

  // ---------------------------------------------------------------------------
  // Samples are independent

  /** y and y2 hold the same 16 * nb_groups values for sample i. */
  predicate SameSample(y: seq<real>, y2: seq<real>, nbGroups: nat, i: nat)
  {
    forall j :: NbStates * (i * nbGroups) <= j < NbStates * (i * nbGroups + nbGroups) ==>
      0 <= j < |y| && 0 <= j < |y2| && y[j] == y2[j]
  }

  lemma SameSampleCell(y: seq<real>, y2: seq<real>, nbGroups: nat, i: nat, g: nat)
    requires g < nbGroups && SameSample(y, y2, nbGroups, i)
    requires NbStates * (i * nbGroups + g) + NbStates <= |y| && NbStates * (i * nbGroups + g) + NbStates <= |y2|
    ensures CellAt(y, i * nbGroups + g) == CellAt(y2, i * nbGroups + g)
  {
    var b := NbStates * (i * nbGroups + g);
    assert b + NbStates <= NbStates * (i * nbGroups + nbGroups);
    assert y[b..b + NbCompartments] == y2[b..b + NbCompartments];
    assert ToSeq(CellAt(y, i * nbGroups + g)) == ToSeq(CellAt(y2, i * nbGroups + g));
  }

  lemma {:induction false} SameSamplePressure(nbSamples: nat, nbGroups: nat, rates: seq<Rates>, y: seq<real>, y2: seq<real>, i: nat, g: nat)
    requires WellFormed(nbSamples, nbGroups, rates, y) && WellFormed(nbSamples, nbGroups, rates, y2)
    requires i < nbSamples && g <= nbGroups && SameSample(y, y2, nbGroups, i)
    ensures PressureUpTo(nbSamples, nbGroups, rates, y, i, g) == PressureUpTo(nbSamples, nbGroups, rates, y2, i, g)
    decreases g
  {
    if g > 0 {
      SameSamplePressure(nbSamples, nbGroups, rates, y, y2, i, g - 1);
      FlatIndexBound(i, g - 1, nbSamples, nbGroups);
      CellBound(i * nbGroups + (g - 1), nbSamples * nbGroups);
      SameSampleCell(y, y2, nbGroups, i, g - 1);
    }
  }

  /**
   * The derivative of a cell of sample i depends only on sample i's state:
   * `_ode` couples the groups of a sample but never two samples.
   */
  lemma SamplesIndependent(nbSamples: nat, nbGroups: nat, rates: seq<Rates>, y: seq<real>, y2: seq<real>, i: nat, g: nat, k: nat)
    requires WellFormed(nbSamples, nbGroups, rates, y) && WellFormed(nbSamples, nbGroups, rates, y2)
    requires i < nbSamples && g < nbGroups && k < NbCompartments && SameSample(y, y2, nbGroups, i)
    ensures NbCompartments * (i * nbGroups + g) + k < |Derivative(nbSamples, nbGroups, rates, y)|
    ensures Derivative(nbSamples, nbGroups, rates, y)[NbCompartments * (i * nbGroups + g) + k]
         == Derivative(nbSamples, nbGroups, rates, y2)[NbCompartments * (i * nbGroups + g) + k]
  {
    DerivativeLayout(nbSamples, nbGroups, rates, y, i, g, k);
    DerivativeLayout(nbSamples, nbGroups, rates, y2, i, g, k);
    SameSampleCell(y, y2, nbGroups, i, g);
    SameSamplePressure(nbSamples, nbGroups, rates, y, y2, i, nbGroups);
  }
}
