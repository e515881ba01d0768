/**
 * numpy arrays reduced to what the model needs: a shape and the elements in
 * row-major order, numpy's broadcasting for arrays of rank at most two, the
 * broadcast lookup of a parameter on the (sample, group) grid, and fancy
 * indexing along the first axis.
 */
module Tensors {
  import opened Results

  /** Number of elements of an array of the given shape. */
  function Size(shape: seq<nat>): nat
  {
    if shape == [] then 1 else shape[0] * Size(shape[1..])
  }

  datatype Tensor = Tensor(shape: seq<nat>, data: seq<real>)

  /** A numpy array: its data always has as many elements as its shape says. */
  type Array = t: Tensor | |t.data| == Size(t.shape) witness Tensor([], [0.0])

  /** The rank-0 array `1`. */
  const One: Array := Tensor([], [1.0])

  /** Length of the row axis once the shape is padded on the left to rank 2. */
  function Rows(a: Array): nat
  {
    if |a.shape| == 2 then a.shape[0] else 1
  }

  /** Length of the last axis (1 for a scalar). */
  function Cols(a: Array): nat
  {
    if |a.shape| == 0 then 1 else a.shape[|a.shape| - 1]
  }

  lemma SizeRowsCols(a: Array)
    requires |a.shape| <= 2
    ensures |a.data| == Rows(a) * Cols(a)
  {
    if |a.shape| == 2 {
      Size2(a.shape[0], a.shape[1]);
      assert a.shape == [a.shape[0], a.shape[1]];
    } else if |a.shape| == 1 {
      Size1(a.shape[0]);
      assert a.shape == [a.shape[0]];
    }
  }

  lemma Size1(x: nat)
    ensures Size([x]) == x
  {
    assert [x][1..] == [];
  }

  lemma Size2(x: nat, y: nat)
    ensures Size([x, y]) == x * y
  {
    assert [x, y][1..] == [y];
    Size1(y);
  }

  lemma FlatIndexBound(r: nat, c: nat, R: nat, C: nat)
    requires r < R && c < C
    ensures r * C + c < R * C
  {
    assert r * C + C == (r + 1) * C;
    MulMonotone(r + 1, R, C);
  }

  lemma MulMonotone(x: nat, y: nat, c: nat)
    requires x <= y
    ensures x * c <= y * c
  {
  }

  lemma DivModBound(k: nat, R: nat, C: nat)
    requires k < R * C
    ensures C > 0 && k / C < R && k % C < C
  {
    if C != 0 && k / C >= R {
      MulMonotone(R, k / C, C);
    }
  }

  lemma DivModUnique(j: nat, q: nat, C: nat)
    requires q < C
    ensures (j * C + q) / C == j && (j * C + q) % C == q
  {
    var k := j * C + q;
    var d, m := k / C, k % C;
    assert k == d * C + m;
    assert (j + 1) * C == j * C + C;
    assert (d + 1) * C == d * C + C;
    if d > j {
      MulMonotone(j + 1, d, C);
    } else if d < j {
      MulMonotone(d + 1, j, C);
    }
  }

  /** Every element is at least c (numpy `np.all(a >= c)`; true of an empty array). */
  predicate AllAtLeast(a: Array, c: real)
  {
    forall k :: 0 <= k < |a.data| ==> a.data[k] >= c
  }

  /** Every element is at most c (numpy `np.all(a <= c)`). */
  predicate AllAtMost(a: Array, c: real)
  {
    forall k :: 0 <= k < |a.data| ==> a.data[k] <= c
  }

  /** Every element equals c. */
  predicate AllEqual(a: Array, c: real)
  {
    forall k :: 0 <= k < |a.data| ==> a.data[k] == c
  }

  /** `1 - a`: the scalar broadcasts, so the result has the shape of a. */
  function OneMinus(a: Array): (r: Array)
    ensures r.shape == a.shape
    ensures forall k :: 0 <= k < |a.data| ==> r.data[k] == 1.0 - a.data[k]
  {
    Tensor(a.shape, seq(|a.data|, k requires 0 <= k < |a.data| => 1.0 - a.data[k]))
  }

  /** A parameter that numpy can broadcast against an (S, G) array. */
  predicate FitsGrid(a: Array, S: nat, G: nat)
  {
    |a.shape| <= 2 && (Rows(a) == 1 || Rows(a) == S) && (Cols(a) == 1 || Cols(a) == G)
  }

  /** The value a parameter contributes at cell (i, g) of the (S, G) grid after broadcasting. */
  function At(a: Array, S: nat, G: nat, i: nat, g: nat): real
    requires FitsGrid(a, S, G) && i < S && g < G
  {
    var r := if Rows(a) == 1 then 0 else i;
    var c := if Cols(a) == 1 then 0 else g;
    SizeRowsCols(a);
    FlatIndexBound(r, c, Rows(a), Cols(a));
    a.data[r * Cols(a) + c]
  }

  /** The element of a stored at the broadcast cell (i, g) is one of a's elements. */
  lemma AtIsElement(a: Array, S: nat, G: nat, i: nat, g: nat)
    requires FitsGrid(a, S, G) && i < S && g < G
    ensures exists k :: 0 <= k < |a.data| && a.data[k] == At(a, S, G, i, g)
  {
    var r := if Rows(a) == 1 then 0 else i;
    var c := if Cols(a) == 1 then 0 else g;
    SizeRowsCols(a);
    FlatIndexBound(r, c, Rows(a), Cols(a));
    assert a.data[r * Cols(a) + c] == At(a, S, G, i, g);
  }

  /** numpy's rule for one axis: equal lengths, or one of them is 1. */
  function BroadcastDim(x: nat, y: nat): Option<nat>
  {
    if x == y then Some(x) else if x == 1 then Some(y) else if y == 1 then Some(x) else None
  }

  function GridData(a: Array, b: Array, R: nat, C: nat): (d: seq<real>)
    requires FitsGrid(a, R, C) && FitsGrid(b, R, C)
    ensures |d| == R * C
  {
    seq(R * C, k requires 0 <= k < R * C =>
      DivModBound(k, R, C);
      At(a, R, C, k / C, k % C) - At(b, R, C, k / C, k % C))
  }

  /**
   * `a - b` with numpy broadcasting. None stands for numpy's "operands could not
   * be broadcast together"; it is also returned when both operands have rank
   * at least one and one of them has rank above two (not modelled).
   */
  function Sub(a: Array, b: Array): (r: Option<Array>)
    ensures |a.shape| == 0 ==> r.Some? && r.value.shape == b.shape
    ensures |b.shape| == 0 ==> r.Some? && r.value.shape == a.shape
  {
    if |a.shape| == 0 then
      Some(Tensor(b.shape, seq(|b.data|, k requires 0 <= k < |b.data| => a.data[0] - b.data[k])))
    else if |b.shape| == 0 then
      Some(Tensor(a.shape, seq(|a.data|, k requires 0 <= k < |a.data| => a.data[k] - b.data[0])))
    else if |a.shape| > 2 || |b.shape| > 2 then None
    else
      match (BroadcastDim(Rows(a), Rows(b)), BroadcastDim(Cols(a), Cols(b)))
      case (Some(R), Some(C)) =>
        var shape := if |a.shape| == 2 || |b.shape| == 2 then [R, C] else [C];
        Size1(C);
        Size2(R, C);
        Some(Tensor(shape, GridData(a, b, R, C)))
      case _ => None
  }

  lemma GridDataAt(a: Array, b: Array, R: nat, C: nat, k: nat)
    requires FitsGrid(a, R, C) && FitsGrid(b, R, C) && k < R * C
    ensures C > 0 && k / C < R && k % C < C
    ensures GridData(a, b, R, C)[k] == At(a, R, C, k / C, k % C) - At(b, R, C, k / C, k % C)
  {
    DivModBound(k, R, C);
  }

  /**
   * The flat index of the element of a that numpy's broadcasting places at
   * flat position k of a result r: a scalar is repeated, an operand of r's own
   * shape is read in place, and otherwise k is cell (k / C, k % C) of r's
   * (R, C) grid, with a's axes of length 1 stretched.
   */
  function SourceIndex(a: Array, r: Array, k: nat): nat
  {
    if |a.shape| == 0 then 0
    else if a.shape == r.shape then k
    else if Cols(r) == 0 then 0
    else
      var i, g := k / Cols(r), k % Cols(r);
      (if Rows(a) == 1 then 0 else i) * Cols(a) + (if Cols(a) == 1 then 0 else g)
  }

  /** The broadcast lookup on r's grid reads a at its source index. */
  lemma AtSourceIndex(a: Array, r: Array, R: nat, C: nat, k: nat)
    requires FitsGrid(a, R, C) && Rows(r) == R && Cols(r) == C && |r.shape| <= 2 && k < R * C
    requires |a.shape| > 0
    ensures C > 0 && k / C < R && k % C < C
    ensures SourceIndex(a, r, k) < |a.data| && a.data[SourceIndex(a, r, k)] == At(a, R, C, k / C, k % C)
  {
    DivModBound(k, R, C);
    var i, g := k / C, k % C;
    var ra := if Rows(a) == 1 then 0 else i;
    var ca := if Cols(a) == 1 then 0 else g;
    assert ra * Cols(a) + ca < |a.data| && At(a, R, C, i, g) == a.data[ra * Cols(a) + ca] by {
      SizeRowsCols(a);
      FlatIndexBound(ra, ca, Rows(a), Cols(a));
    }
    SourceIndexOnGrid(a, r, R, C, k);
  }

  /** Off the scalar case, the source index is the stretched cell of k on r's grid. */
  lemma SourceIndexOnGrid(a: Array, r: Array, R: nat, C: nat, k: nat)
    requires FitsGrid(a, R, C) && Rows(r) == R && Cols(r) == C && |r.shape| <= 2 && k < R * C
    requires |a.shape| > 0
    ensures C > 0
    ensures SourceIndex(a, r, k)
      == (if Rows(a) == 1 then 0 else k / C) * Cols(a) + (if Cols(a) == 1 then 0 else k % C)
  {
    DivModBound(k, R, C);
    if a.shape == r.shape {
      SplitIndex(k, R, C);
    }
  }

  /** Position k of an (R, C) grid is row k / C, column k % C, whatever axes have length 1. */
  lemma SplitIndex(k: nat, R: nat, C: nat)
    requires k < R * C
    ensures C > 0
    ensures (if R == 1 then 0 else k / C) * C + (if C == 1 then 0 else k % C) == k
  {
    DivModBound(k, R, C);
    assert k == (k / C) * C + k % C;
    if R == 1 {
      assert k / C == 0;
    }
    if C == 1 {
      assert k % C == 0;
    }
  }

  /**
   * Element k of a broadcast difference is a's element at its source index
   * minus b's element at its source index.
   */
  lemma SubAt(a: Array, b: Array, k: nat)
    requires Sub(a, b).Some? && k < |Sub(a, b).value.data|
    ensures var r := Sub(a, b).value;
      SourceIndex(a, r, k) < |a.data| && SourceIndex(b, r, k) < |b.data|
      && r.data[k] == a.data[SourceIndex(a, r, k)] - b.data[SourceIndex(b, r, k)]
  {
    var r := Sub(a, b).value;
    if |a.shape| == 0 {
      assert r.data[k] == a.data[0] - b.data[k];
    } else if |b.shape| == 0 {
      assert r.data[k] == a.data[k] - b.data[0];
    } else {
      var R := BroadcastDim(Rows(a), Rows(b)).value;
      var C := BroadcastDim(Cols(a), Cols(b)).value;
      assert r.data == GridData(a, b, R, C);
      if |r.shape| == 2 {
        assert r.shape == [R, C];
      } else {
        assert r.shape == [C];
        Size1(C);
      }
      GridDataAt(a, b, R, C, k);
      AtSourceIndex(a, r, R, C, k);
      AtSourceIndex(b, r, R, C, k);
    }
  }

  /**
   * For operands of rank at most two, `a - b` is defined exactly when each
   * axis broadcasts, and the result has the larger rank and the broadcast
   * length on each axis.
   */
  lemma SubShape(a: Array, b: Array)
    requires |a.shape| <= 2 && |b.shape| <= 2
    ensures Sub(a, b).Some? <==> BroadcastDim(Rows(a), Rows(b)).Some? && BroadcastDim(Cols(a), Cols(b)).Some?
    ensures Sub(a, b).Some? ==>
      (|Sub(a, b).value.shape| == (if |a.shape| < |b.shape| then |b.shape| else |a.shape|)
      && Rows(Sub(a, b).value) == BroadcastDim(Rows(a), Rows(b)).value
      && Cols(Sub(a, b).value) == BroadcastDim(Cols(a), Cols(b)).value)
  {
  }

  /** Row r of a rank-2 array. */
  function Row(a: Array, r: nat): (row: seq<real>)
    requires |a.shape| == 2 && r < a.shape[0]
    ensures |row| == a.shape[1]
  {
    SizeRowsCols(a);
    assert (r + 1) * a.shape[1] == r * a.shape[1] + a.shape[1];
    MulMonotone(r + 1, a.shape[0], a.shape[1]);
    a.data[r * a.shape[1]..(r + 1) * a.shape[1]]
  }

  /** Every index is a valid position on the first axis of a. */
  predicate IndicesBelow(idx: seq<nat>, bound: nat)
  {
    forall j :: 0 <= j < |idx| ==> idx[j] < bound
  }

  function GatherData(a: Array, idx: seq<nat>): (d: seq<real>)
    requires |a.shape| == 2 && IndicesBelow(idx, a.shape[0])
    ensures |d| == |idx| * a.shape[1]
  {
    seq(|idx| * a.shape[1], k requires 0 <= k < |idx| * a.shape[1] => GatherAt(a, idx, k))
  }

  /** Element k of `a[idx]`: column k % C of row idx[k / C]. */
  function GatherAt(a: Array, idx: seq<nat>, k: nat): real
    requires |a.shape| == 2 && IndicesBelow(idx, a.shape[0]) && k < |idx| * a.shape[1]
  {
    var C := a.shape[1];
    SizeRowsCols(a);
    DivModBound(k, |idx|, C);
    FlatIndexBound(idx[k / C], k % C, a.shape[0], C);
    a.data[idx[k / C] * C + k % C]
  }

  /** numpy `a[idx]` for a rank-2 array: the rows named by idx, in order. */
  function Gather(a: Array, idx: seq<nat>): (r: Array)
    requires |a.shape| == 2 && IndicesBelow(idx, a.shape[0])
    ensures r.shape == [|idx|, a.shape[1]]
  {
    Size2(|idx|, a.shape[1]);
    Tensor([|idx|, a.shape[1]], GatherData(a, idx))
  }

  lemma RowAt(a: Array, r: nat, q: nat)
    requires |a.shape| == 2 && r < a.shape[0] && q < a.shape[1]
    ensures r * a.shape[1] + q < |a.data|
    ensures Row(a, r)[q] == a.data[r * a.shape[1] + q]
  {
    SizeRowsCols(a);
    FlatIndexBound(r, q, a.shape[0], a.shape[1]);
  }

  lemma GatherAtRow(a: Array, idx: seq<nat>, j: nat, q: nat)
    requires |a.shape| == 2 && IndicesBelow(idx, a.shape[0]) && j < |idx| && q < a.shape[1]
    ensures j * a.shape[1] + q < |idx| * a.shape[1]
    ensures idx[j] * a.shape[1] + q < |a.data|
    ensures GatherAt(a, idx, j * a.shape[1] + q) == a.data[idx[j] * a.shape[1] + q]
  {
    SizeRowsCols(a);
    FlatIndexBound(idx[j], q, a.shape[0], a.shape[1]);
    FlatIndexBound(j, q, |idx|, a.shape[1]);
    DivModUnique(j, q, a.shape[1]);
  }

  /** Row j of the gathered array is row idx[j] of the original. */
  lemma GatherRow(a: Array, idx: seq<nat>, j: nat)
    requires |a.shape| == 2 && IndicesBelow(idx, a.shape[0]) && j < |idx|
    ensures Row(Gather(a, idx), j) == Row(a, idx[j])
  {
    var C := a.shape[1];
    var g := Gather(a, idx);
    var lhs, rhs := Row(g, j), Row(a, idx[j]);
    forall q | 0 <= q < C
      ensures lhs[q] == rhs[q]
    {
      RowAt(g, j, q);
      RowAt(a, idx[j], q);
      GatherAtRow(a, idx, j, q);
    }
  }

  /** The sum of a sequence of reals (numpy `np.sum`), added from the front. */
  function Sum(s: seq<real>): real
  {
    if s == [] then 0.0 else s[0] + Sum(s[1..])
  }

  lemma {:induction false} SumConcat(a: seq<real>, b: seq<real>)
    ensures Sum(a + b) == Sum(a) + Sum(b)
    decreases |a|
  {
    if a != [] {
      assert (a + b)[0] == a[0];
      assert (a + b)[1..] == a[1..] + b;
      SumConcat(a[1..], b);
    } else {
      assert a + b == b;
    }
  }
}
