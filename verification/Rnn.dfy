/** The recurrent network of rnn.c: activations, layers, and the state carried from frame to frame. */
module Rnn {
  import opened Reals
  import opened Sizes
  import Arith

  const MAX_NEURONS := 128
  const INPUT_SIZE := 42
  const WEIGHTS_SCALE: real := 1.0 / 256.0
  const TABLE_SIZE := 201

  datatype Activation = Tanh | Sigmoid | Relu

  // ---- Activations ----

  /** The hyperbolic tangent at 0, 0.04, ..., 8. Only its range and its value at 0 matter here. */
  ghost predicate IsTable(table: seq<real>)
  {
    |table| == TABLE_SIZE && table[0] == 0.0 && forall i :: 0 <= i < TABLE_SIZE ==> 0.0 <= table[i] <= 1.0
  }

  /** (int)floor(.5f + 25 x). */
  function TableIndex(x: real): int
  {
    (0.5 + 25.0 * x).Floor
  }

  lemma TableIndexRange(x: real)
    requires 0.0 <= x < 8.0
    ensures 0 <= TableIndex(x) < TABLE_SIZE
    ensures -0.02 <= x - 0.04 * TableIndex(x) as real <= 0.02
    ensures TableIndex(x) == 0 ==> x - 0.04 * TableIndex(x) as real == x
  {
  }

  /** One step of the addition formula from the table value y by x. */
  function Corrected(y: real, x: real): real
  {
    y + SMul(SMul(x, 1.0 - SMul(y, y)), 1.0 - SMul(y, x))
  }

  lemma CorrectedRange(y: real, x: real)
    requires 0.0 <= y <= 1.0 && -0.02 <= x <= 0.02
    ensures -1.0 <= Corrected(y, x) <= 1.0
    ensures y == 0.0 ==> Corrected(y, x) == x
  {
    hide SMul;
    var v, w := 1.0 - SMul(y, y), 1.0 - SMul(y, x);
    SquareRange(y);
    Scaled(y, x);
    Scaled(w, x);
    SMulSign(x, w);
    Scaled(v, SMul(x, w));
    SMulSign(x, v);
    SMulAssoc(v, x, w);
    SMulUnit(x);
    SMulUnit(y);
  }

  /** 1 - y^2 is between 0 and 1 and at most twice 1 - y. */
  lemma SquareRange(y: real)
    requires 0.0 <= y <= 1.0
    ensures 0.0 <= 1.0 - SMul(y, y) <= 1.0 && 1.0 - SMul(y, y) <= 2.0 - 2.0 * y
  {
    hide SMul;
    SMulBetween(y, 0.0, y, 1.0);
    SMulUnit(y);
    SMulSquare(1.0 - y);
    SMulLinear(1.0, y, 1.0 - y);
    SMulLinear(1.0, y, y);
    SMulUnit(1.0 - y);
  }

  /** A small factor x makes a product small. */
  lemma Scaled(y: real, x: real)
    requires y >= 0.0 && -0.03 <= x <= 0.03
    ensures -0.03 * y <= SMul(y, x) <= 0.03 * y
    ensures -0.02 <= x <= 0.02 ==> -0.02 * y <= SMul(y, x) <= 0.02 * y
  {
    SMulBetween(y, -0.03, x, 0.03);
    if -0.02 <= x <= 0.02 {
      SMulBetween(y, -0.02, x, 0.02);
    }
  }

  /** With x for the tangent of the step, the correction is the addition formula (y + x) / (1 + y x) up to a term in the
      cube of x. */
  lemma AdditionFormula(y: real, x: real)
    ensures SMul(1.0 + SMul(y, x), Corrected(y, x))
         == y + x - SMul(SMul(x, SMul(x, x)), SMul(SMul(y, y), 1.0 - SMul(y, y)))
  {
    hide SMul;
    var yx, yy, v := SMul(y, x), SMul(y, y), 1.0 - SMul(y, y);
    var xv := SMul(x, v);
    SMulLinear(1.0, yx, Corrected(y, x));
    SMulUnit(Corrected(y, x));
    SMulLinear(1.0, yx, xv);
    SMulUnit(xv);
    SMulLinear(y, SMul(xv, 1.0 - yx), yx);
    SMulLinear(xv, SMul(xv, yx), yx);
    SMulSign(xv, yx);
    SMulSign(yx, SMul(xv, 1.0 - yx));
    SMulAssoc(xv, yx, yx);
    SMulLinear(1.0, yy, x);
    SMulUnit(x);
    SMulSign(y, yx);
    SquareTimes(y, x);
    CubeTerm(y, x, v);
  }

  lemma SquareTimes(y: real, x: real)
    ensures SMul(y, SMul(y, x)) == SMul(x, SMul(y, y)) && SMul(SMul(y, x), y) == SMul(x, SMul(y, y))
  {
    hide SMul;
    SMulAssoc(y, y, x);
    SMulSign(SMul(y, y), x);
    SMulSign(SMul(y, x), y);
  }

  lemma CubeTerm(y: real, x: real, v: real)
    ensures SMul(SMul(SMul(x, v), SMul(y, x)), SMul(y, x)) == SMul(SMul(x, SMul(x, x)), SMul(SMul(y, y), v))
  {
    assert SMul(SMul(SMul(x, v), SMul(y, x)), SMul(y, x)) == ((x * v) * (y * x)) * (y * x);
    assert ((x * v) * (y * x)) * (y * x) == (x * (x * x)) * ((y * y) * v);
  }

  /** The interpolated table for arguments from 0 to 8 (rnn.c:61-65). */
  function Lookup(table: seq<real>, x: real): (r: real)
    requires IsTable(table) && 0.0 <= x < 8.0
    ensures -1.0 <= r <= 1.0 && (x == 0.0 ==> r == 0.0)
  {
    TableIndexRange(x);
    TableEntry(table, TableIndex(x));
    CorrectedRange(table[TableIndex(x)], x - 0.04 * TableIndex(x) as real);
    Corrected(table[TableIndex(x)], x - 0.04 * TableIndex(x) as real)
  }

  lemma TableEntry(table: seq<real>, i: int)
    requires IsTable(table) && 0 <= i < TABLE_SIZE
    ensures 0.0 <= table[i] <= 1.0 && table[0] == 0.0
  {
  }

  /** tansig_approx (rnn.c:41-67) on a number. */
  function TansigApprox(table: seq<real>, x: real): (r: real)
    requires IsTable(table)
    ensures -1.0 <= r <= 1.0
  {
    if !(x < 8.0) then 1.0
    else if !(x > -8.0) then -1.0
    else if x < 0.0 then -1.0 * Lookup(table, -x) else 1.0 * Lookup(table, x)
  }

  lemma TansigOdd(table: seq<real>, x: real)
    requires IsTable(table)
    ensures TansigApprox(table, -x) == -TansigApprox(table, x)
  {
    hide Lookup, IsTable;
  }

  /** At the arguments of the table the approximation is the table, and behind both ends it is 1 and -1. */
  lemma TansigAtTable(table: seq<real>, i: nat, x: real)
    requires IsTable(table)
    ensures i < TABLE_SIZE - 1 ==> TansigApprox(table, 0.04 * i as real) == table[i]
    ensures x >= 8.0 ==> TansigApprox(table, x) == 1.0
    ensures x <= -8.0 ==> TansigApprox(table, x) == -1.0
  {
    hide IsTable;
    if i < TABLE_SIZE - 1 {
      TableEntry(table, i);
      OnTable(table, i);
    }
  }

  lemma OnTable(table: seq<real>, i: nat)
    requires IsTable(table) && i < TABLE_SIZE - 1
    ensures 0.0 <= 0.04 * i as real < 8.0 && Lookup(table, 0.04 * i as real) == table[i]
  {
    hide SMul;
    assert 0.5 + 25.0 * (0.04 * i as real) == i as real + 0.5;
    assert TableIndex(0.04 * i as real) == i;
    NoStep(table[i]);
  }

  lemma NoStep(y: real)
    ensures Corrected(y, 0.0) == y
  {
  }

  predicate IsNear(x: real, i: nat)
  {
    -0.02 <= x - 0.04 * i as real <= 0.02
  }

  /** Between them it is the table entry at the nearest argument, moved by the correction. */
  lemma TansigBetween(table: seq<real>, x: real)
    requires IsTable(table) && 0.0 <= x < 8.0
    ensures exists i: nat {:trigger table[i]} :: i < TABLE_SIZE && IsNear(x, i)
              && TansigApprox(table, x) == Corrected(table[i], x - 0.04 * i as real)
  {
    hide Corrected;
    TableIndexRange(x);
    var i := TableIndex(x);
    var y := table[i];
  }

  /** sigmoid_approx (rnn.c:69-72). */
  function SigmoidApprox(table: seq<real>, x: real): (r: real)
    requires IsTable(table)
    ensures 0.0 <= r <= 1.0
  {
    0.5 + 0.5 * TansigApprox(table, 0.5 * x)
  }

  /** At twice the arguments of the table it is half of one plus the table. */
  lemma SigmoidAtTable(table: seq<real>, i: nat, x: real)
    requires IsTable(table)
    ensures i < TABLE_SIZE - 1 ==> SigmoidApprox(table, 0.08 * i as real) == 0.5 + table[i] / 2.0
    ensures x >= 16.0 ==> SigmoidApprox(table, x) == 1.0
    ensures x <= -16.0 ==> SigmoidApprox(table, x) == 0.0
  {
    hide TansigApprox, IsTable;
    TansigAtTable(table, i, 0.5 * x);
    assert 0.5 * (0.08 * i as real) == 0.04 * i as real;
  }

  lemma SigmoidSymmetric(table: seq<real>, x: real)
    requires IsTable(table)
    ensures SigmoidApprox(table, -x) == 1.0 - SigmoidApprox(table, x)
  {
    TansigOdd(table, 0.5 * x);
    assert 0.5 * -x == -(0.5 * x);
  }

  /** relu (rnn.c:74-77). */
  function ReluApprox(x: real): (r: real)
    ensures r >= 0.0 && (r == 0.0 || r == x) && (x >= 0.0 ==> r == x)
  {
    if x < 0.0 then 0.0 else x
  }

  function Activate(a: Activation, table: seq<real>, x: real): real
    requires IsTable(table)
  {
    match a
    case Sigmoid => SigmoidApprox(table, x)
    case Tanh => TansigApprox(table, x)
    case Relu => ReluApprox(x)
  }

  /** Which activation is which: tanh is odd, the values of the sigmoid at x and -x add up to 1, relu splits x. */
  lemma ActivationLaws(table: seq<real>, x: real)
    requires IsTable(table)
    ensures Activate(Tanh, table, -x) == -Activate(Tanh, table, x)
    ensures Activate(Sigmoid, table, -x) + Activate(Sigmoid, table, x) == 1.0
    ensures Activate(Relu, table, x) - Activate(Relu, table, -x) == x
    ensures x >= 8.0 ==> Activate(Tanh, table, x) == 1.0
    ensures x >= 16.0 ==> Activate(Sigmoid, table, x) == 1.0
  {
    hide TansigApprox, IsTable;
    TansigOdd(table, x);
    SigmoidSymmetric(table, x);
    TansigAtTable(table, 0, x);
    TansigAtTable(table, 0, 0.5 * x);
  }

  /** What every output of an activation satisfies. */
  predicate InRange(a: Activation, x: real)
  {
    match a
    case Sigmoid => 0.0 <= x <= 1.0
    case Tanh => -1.0 <= x <= 1.0
    case Relu => x >= 0.0
  }

  lemma ActivateRange(a: Activation, table: seq<real>, x: real)
    requires IsTable(table)
    ensures InRange(a, Activate(a, table, x))
  {
    hide TansigApprox, SigmoidApprox, ReluApprox;
  }

  // ---- Layers ----

  datatype DenseLayer = DenseLayer(bias: seq<int>, inputWeights: seq<int>, nbInputs: nat, nbNeurons: nat,
                                   activation: Activation)

  datatype GRULayer = GRULayer(bias: seq<int>, inputWeights: seq<int>, recurrentWeights: seq<int>,
                               nbInputs: nat, nbNeurons: nat, activation: Activation)

  predicate IsDense(l: DenseLayer)
  {
    l.nbNeurons <= MAX_NEURONS && |l.bias| == l.nbNeurons && |l.inputWeights| == l.nbInputs * l.nbNeurons
  }

  predicate IsGru(l: GRULayer)
  {
    l.nbNeurons <= MAX_NEURONS && |l.bias| == 3 * l.nbNeurons
    && |l.inputWeights| == l.nbInputs * (3 * l.nbNeurons) && |l.recurrentWeights| == l.nbNeurons * (3 * l.nbNeurons)
  }

  function WAt(w: seq<int>, i: int): real
  {
    if 0 <= i < |w| then w[i] as real else 0.0
  }

  ghost function WTerm(w: seq<int>, off: int, stride: int, x: seq<real>, j: int): real
  {
    SMul(WAt(w, j * stride + off), RAt(x, j))
  }

  /** A column of the weight matrix against x. */
  ghost function WSum(w: seq<int>, off: int, stride: int, n: nat, x: seq<real>): real
  {
    RSum(n, j => WTerm(w, off, stride, x, j))
  }

  ghost function GatedTerm(w: seq<int>, off: int, stride: int, x: seq<real>, r: seq<real>, j: int): real
  {
    SMul(WTerm(w, off, stride, x, j), RAt(r, j))
  }

  /** The same against x with every entry scaled by its reset gate. */
  ghost function GatedSum(w: seq<int>, off: int, stride: int, n: nat, x: seq<real>, r: seq<real>): real
  {
    RSum(n, j => GatedTerm(w, off, stride, x, r, j))
  }

  // ---- Dense layer ----

  ghost function DenseSum(l: DenseLayer, x: seq<real>, i: int): real
  {
    WAt(l.bias, i) + WSum(l.inputWeights, i, l.nbNeurons, l.nbInputs, x)
  }

  /** The outputs of a dense layer. */
  ghost function DenseOut(l: DenseLayer, table: seq<real>, x: seq<real>): (y: seq<real>)
    requires IsTable(table)
    ensures |y| == l.nbNeurons
  {
    seq(l.nbNeurons, i => Activate(l.activation, table, SMul(WEIGHTS_SCALE, DenseSum(l, x, i))))
  }

  lemma WSumNext(w: seq<int>, off: int, stride: int, n: nat, x: seq<real>)
    ensures WSum(w, off, stride, 0, x) == 0.0
    ensures WSum(w, off, stride, n + 1, x) == WSum(w, off, stride, n, x) + WTerm(w, off, stride, x, n)
  {
    hide WTerm;
  }

  lemma GatedSumNext(w: seq<int>, off: int, stride: int, n: nat, x: seq<real>, r: seq<real>)
    ensures GatedSum(w, off, stride, 0, x, r) == 0.0
    ensures GatedSum(w, off, stride, n + 1, x, r)
         == GatedSum(w, off, stride, n, x, r) + GatedTerm(w, off, stride, x, r, n)
  {
    hide GatedTerm;
  }

  lemma WTermIs(w: seq<int>, off: nat, stride: nat, n: nat, x: seq<real>, j: nat)
    requires j < n && off < stride && |w| == n * stride && j < |x|
    ensures 0 <= j * stride + off < |w|
    ensures WTerm(w, off, stride, x, j) == SMul(w[j * stride + off] as real, x[j])
  {
    hide SMul;
    Arith.StepFits(j, n, stride);
  }

  /** A vector with one entry other than zero picks one weight of the column. */
  lemma WSumOne(w: seq<int>, off: int, stride: int, n: nat, x: seq<real>, j: nat)
    requires j < n <= |x| && forall k :: 0 <= k < |x| && k != j ==> x[k] == 0.0
    ensures WSum(w, off, stride, n, x) == SMul(WAt(w, j * stride + off), x[j])
  {
    hide SMul, WAt;
    forall k | 0 <= k < n && k != j
      ensures WTerm(w, off, stride, x, k) == 0.0
    {
      SMulUnit(WAt(w, k * stride + off));
    }
    RSumOne(n, k => WTerm(w, off, stride, x, k), j);
  }

  lemma WSumNone(w: seq<int>, off: int, stride: int, n: nat, x: seq<real>)
    requires forall k :: 0 <= k < |x| ==> x[k] == 0.0
    ensures WSum(w, off, stride, n, x) == 0.0
  {
    hide SMul, WAt;
    forall k | 0 <= k < n
      ensures WTerm(w, off, stride, x, k) == 0.0
    {
      SMulUnit(WAt(w, k * stride + off));
    }
    RSumZero(n, k => WTerm(w, off, stride, x, k));
  }

  /** Which weight stands for which pair: output i of a dense layer takes input j with weight j N + i. */
  lemma DenseWeights(l: DenseLayer, x: seq<real>, i: nat, j: nat)
    requires IsDense(l) && i < l.nbNeurons && j < l.nbInputs && |x| == l.nbInputs
    requires forall k :: 0 <= k < |x| && k != j ==> x[k] == 0.0
    ensures 0 <= j * l.nbNeurons + i < |l.inputWeights|
    ensures DenseSum(l, x, i) == l.bias[i] as real + SMul(l.inputWeights[j * l.nbNeurons + i] as real, x[j])
  {
    hide SMul, WSum;
    Arith.StepFits(j, l.nbInputs, l.nbNeurons);
    WSumOne(l.inputWeights, i, l.nbNeurons, l.nbInputs, x, j);
  }

  /** The inner loops over a column of weights (rnn.c:91-92, 124-127, 135-137 and 144-145). inside says that no element
      behind the end of x was asked for. */
  method AddColumn(sum0: real, w: seq<int>, off: nat, stride: nat, n: nat, x: array<real>)
      returns (sum: real, inside: bool)
    requires off < stride && |w| == n * stride
    ensures inside <==> n <= x.Length
    ensures inside ==> sum == sum0 + WSum(w, off, stride, n, x[..])
  {
    hide SMul, WSum, WTerm;
    sum := sum0;
    WSumNext(w, off, stride, 0, x[..]);
    var j := 0;
    while j < n
      invariant 0 <= j <= n && j <= x.Length && sum == sum0 + WSum(w, off, stride, j, x[..])
    {
      if j >= x.Length {
        return sum, false;
      }
      WTermIs(w, off, stride, n, x[..], j);
      WSumNext(w, off, stride, j, x[..]);
      sum := sum + SMul(w[j * stride + off] as real, x[j]);
      j := j + 1;
    }
    inside := true;
  }

  /** The inner loop over the gated state (rnn.c:146-147). */
  method AddGatedColumn(sum0: real, w: seq<int>, off: nat, stride: nat, n: nat, x: array<real>, r: array<real>)
      returns (sum: real)
    requires off < stride && |w| == n * stride && n <= x.Length && n <= r.Length
    ensures sum == sum0 + GatedSum(w, off, stride, n, x[..], r[..])
  {
    hide SMul, GatedSum, WTerm;
    sum := sum0;
    GatedSumNext(w, off, stride, 0, x[..], r[..]);
    var j := 0;
    while j < n
      invariant 0 <= j <= n && sum == sum0 + GatedSum(w, off, stride, j, x[..], r[..])
    {
      WTermIs(w, off, stride, n, x[..], j);
      GatedSumNext(w, off, stride, j, x[..], r[..]);
      sum := sum + SMul(SMul(w[j * stride + off] as real, x[j]), r[j]);
      j := j + 1;
    }
  }

  /** A layer of n neurons and m inputs finds enough of them among k; without neurons it looks at none. */
  predicate Supplied(n: nat, m: nat, k: nat)
  {
    n == 0 || m <= k
  }

  lemma SuppliedIs(n: nat, m: nat, k: nat)
    ensures Supplied(n, m, k) <==> n == 0 || m <= k
  {
  }

  /** compute_dense (rnn.c:79-107). inside says that every access was to an element of its array. */
  method ComputeDense(l: DenseLayer, table: seq<real>, output: array<real>, input: array<real>) returns (inside: bool)
    requires IsDense(l) && IsTable(table) && input != output
    modifies output
    ensures inside <==> Supplied(l.nbNeurons, l.nbInputs, input.Length) && l.nbNeurons <= output.Length
    ensures inside ==> output[..l.nbNeurons] == DenseOut(l, table, input[..])
    ensures inside ==> forall i :: 0 <= i < l.nbNeurons ==> InRange(l.activation, output[i])
    ensures inside ==> forall i :: l.nbNeurons <= i < output.Length ==> output[i] == old(output[i])
  {
    hide SMul, WSum, Activate, InRange, IsTable;
    ghost var xs := input[..];
    var N := l.nbNeurons;
    var i := 0;
    while i < N
      invariant 0 <= i <= N && i <= output.Length && input[..] == xs && Supplied(i, l.nbInputs, input.Length)
      invariant forall k :: 0 <= k < i ==> output[k] == SMul(WEIGHTS_SCALE, DenseSum(l, xs, k))
      invariant forall k :: N <= k < output.Length ==> output[k] == old(output[k])
    {
      var sum;
      sum, inside := AddColumn(l.bias[i] as real, l.inputWeights, i, N, l.nbInputs, input);
      if !inside || i >= output.Length {
        return false;
      }
      output[i] := SMul(WEIGHTS_SCALE, sum);
      i := i + 1;
    }
    inside := true;
    i := 0;
    while i < N
      invariant 0 <= i <= N && input[..] == xs
      invariant forall k :: 0 <= k < N ==>
        output[k] == if k < i then Activate(l.activation, table, SMul(WEIGHTS_SCALE, DenseSum(l, xs, k)))
                     else SMul(WEIGHTS_SCALE, DenseSum(l, xs, k))
      invariant forall k :: 0 <= k < i ==> InRange(l.activation, output[k])
      invariant forall k :: N <= k < output.Length ==> output[k] == old(output[k])
    {
      ActivateRange(l.activation, table, output[i]);
      output[i] := Activate(l.activation, table, output[i]);
      i := i + 1;
    }
  }

  // ---- Gated recurrent layer ----

  /** Bias, input and state of gate k (0 update, 1 reset) for neuron i. */
  ghost function GateSum(l: GRULayer, k: nat, s: seq<real>, x: seq<real>, i: int): real
  {
    WAt(l.bias, k * l.nbNeurons + i) + WSum(l.inputWeights, k * l.nbNeurons + i, 3 * l.nbNeurons, l.nbInputs, x)
    + WSum(l.recurrentWeights, k * l.nbNeurons + i, 3 * l.nbNeurons, l.nbNeurons, s)
  }

  ghost function Gate(l: GRULayer, table: seq<real>, k: nat, s: seq<real>, x: seq<real>, i: int): real
    requires IsTable(table)
  {
    SigmoidApprox(table, SMul(WEIGHTS_SCALE, GateSum(l, k, s, x, i)))
  }

  ghost function ResetGates(l: GRULayer, table: seq<real>, s: seq<real>, x: seq<real>): (r: seq<real>)
    requires IsTable(table)
    ensures |r| == l.nbNeurons
  {
    seq(l.nbNeurons, i => Gate(l, table, 1, s, x, i))
  }

  ghost function CandidateSum(l: GRULayer, s: seq<real>, x: seq<real>, r: seq<real>, i: int): real
  {
    WAt(l.bias, 2 * l.nbNeurons + i) + WSum(l.inputWeights, 2 * l.nbNeurons + i, 3 * l.nbNeurons, l.nbInputs, x)
    + GatedSum(l.recurrentWeights, 2 * l.nbNeurons + i, 3 * l.nbNeurons, l.nbNeurons, s, r)
  }

  ghost function CandidateState(l: GRULayer, table: seq<real>, s: seq<real>, x: seq<real>, i: int): real
    requires IsTable(table)
  {
    Activate(l.activation, table, SMul(WEIGHTS_SCALE, CandidateSum(l, s, x, ResetGates(l, table, s, x), i)))
  }

  /** z s + (1 - z) h. */
  function Blend(z: real, s: real, h: real): real
  {
    SMul(z, s) + SMul(1.0 - z, h)
  }

  /** The simultaneous equations of the gated recurrent unit: every right-hand side is about the old state s. */
  ghost function GruStep(l: GRULayer, table: seq<real>, s: seq<real>, x: seq<real>): (n: seq<real>)
    requires IsTable(table) && |s| == l.nbNeurons
    ensures |n| == l.nbNeurons
  {
    seq(l.nbNeurons, i requires 0 <= i < |s| =>
      Blend(Gate(l, table, 0, s, x, i), s[i], CandidateState(l, table, s, x, i)))
  }

  lemma OffsetFits(k: nat, n: nat, i: nat)
    requires k < 3 && i < n
    ensures k * n + i < 3 * n
  {
  }

  /** Which weight stands for which pair: gate k (0 update, 1 reset) and the candidate (2) of neuron i take input j with
      weight j 3N + k N + i, and the old state of neuron j, for the candidate through j's reset gate, with the recurrent
      weight of the same number. */
  lemma GruWeights(l: GRULayer, k: nat, i: nat, j: nat, q: nat, s: seq<real>, x: seq<real>, r: seq<real>)
    requires IsGru(l) && k < 3 && i < l.nbNeurons && j < l.nbInputs && q < l.nbNeurons
    requires |x| == l.nbInputs && |s| == |r| == l.nbNeurons
    requires forall m :: 0 <= m < |x| && m != j ==> x[m] == 0.0
    requires forall m :: 0 <= m < |s| && m != q ==> s[m] == 0.0
    ensures 0 <= j * (3 * l.nbNeurons) + (k * l.nbNeurons + i) < |l.inputWeights|
    ensures 0 <= q * (3 * l.nbNeurons) + (k * l.nbNeurons + i) < |l.recurrentWeights|
    ensures 0 <= k * l.nbNeurons + i < |l.bias|
    ensures
      var b := l.bias[k * l.nbNeurons + i] as real;
      var u := SMul(l.inputWeights[j * (3 * l.nbNeurons) + (k * l.nbNeurons + i)] as real, x[j]);
      var v := SMul(l.recurrentWeights[q * (3 * l.nbNeurons) + (k * l.nbNeurons + i)] as real, s[q]);
      if k < 2 then GateSum(l, k, s, x, i) == b + u + v
      else CandidateSum(l, s, x, r, i) == b + u + SMul(v, r[q])
  {
    hide *;
    WeightBounds(l, k, i, j, q);
    var n := l.nbNeurons;
    WSumOne(l.inputWeights, k * n + i, 3 * n, l.nbInputs, x, j);
    WSumOne(l.recurrentWeights, k * n + i, 3 * n, n, s, q);
    if k == 2 {
      GatedSumOne(l.recurrentWeights, k * n + i, 3 * n, n, s, r, q);
      CandidateSumIs(l, s, x, r, i);
    } else {
      GateSumIs(l, k, s, x, i);
    }
  }

  lemma WeightBounds(l: GRULayer, k: nat, i: nat, j: nat, q: nat)
    requires IsGru(l) && k < 3 && i < l.nbNeurons && j < l.nbInputs && q < l.nbNeurons
    ensures
      var n := l.nbNeurons;
      var b, u, v := k * n + i, j * (3 * n) + (k * n + i), q * (3 * n) + (k * n + i);
      && 0 <= b < |l.bias| && 0 <= u < |l.inputWeights| && 0 <= v < |l.recurrentWeights|
      && WAt(l.bias, b) == l.bias[b] as real && WAt(l.inputWeights, u) == l.inputWeights[u] as real
      && WAt(l.recurrentWeights, v) == l.recurrentWeights[v] as real
  {
    hide WAt;
    var n := l.nbNeurons;
    OffsetFits(k, n, i);
    Arith.StepFits(j, l.nbInputs, 3 * n);
    Arith.StepFits(q, n, 3 * n);
    WAtIs(l.bias, k * n + i);
    WAtIs(l.inputWeights, j * (3 * n) + (k * n + i));
    WAtIs(l.recurrentWeights, q * (3 * n) + (k * n + i));
  }

  lemma WAtIs(w: seq<int>, i: int)
    requires 0 <= i < |w|
    ensures WAt(w, i) == w[i] as real
  {
  }

  lemma GateSumIs(l: GRULayer, k: nat, s: seq<real>, x: seq<real>, i: int)
    ensures GateSum(l, k, s, x, i)
         == WAt(l.bias, k * l.nbNeurons + i)
            + WSum(l.inputWeights, k * l.nbNeurons + i, 3 * l.nbNeurons, l.nbInputs, x)
            + WSum(l.recurrentWeights, k * l.nbNeurons + i, 3 * l.nbNeurons, l.nbNeurons, s)
  {
    hide WAt, WSum;
  }

  lemma CandidateSumIs(l: GRULayer, s: seq<real>, x: seq<real>, r: seq<real>, i: int)
    ensures CandidateSum(l, s, x, r, i)
         == WAt(l.bias, 2 * l.nbNeurons + i)
            + WSum(l.inputWeights, 2 * l.nbNeurons + i, 3 * l.nbNeurons, l.nbInputs, x)
            + GatedSum(l.recurrentWeights, 2 * l.nbNeurons + i, 3 * l.nbNeurons, l.nbNeurons, s, r)
  {
    hide WAt, WSum, GatedSum;
  }

  lemma GatedSumOne(w: seq<int>, off: int, stride: int, n: nat, x: seq<real>, r: seq<real>, j: nat)
    requires j < n == |x| == |r| && forall k :: 0 <= k < |x| && k != j ==> x[k] == 0.0
    ensures GatedSum(w, off, stride, n, x, r) == SMul(SMul(WAt(w, j * stride + off), x[j]), r[j])
  {
    hide SMul, WAt;
    forall k | 0 <= k < n && k != j
      ensures GatedTerm(w, off, stride, x, r, k) == 0.0
    {
      SMulUnit(WAt(w, k * stride + off));
      SMulUnit(r[k]);
    }
    RSumOne(n, k => GatedTerm(w, off, stride, x, r, k), j);
  }

  /** What the update gate decides: at 1 a neuron keeps its old state, at 0 it takes the candidate; and the gate is at 1
      from a sum of 4096 on, at 0 from -4096 down. */
  lemma UpdateGate(l: GRULayer, table: seq<real>, s: seq<real>, x: seq<real>, i: nat)
    requires IsTable(table) && |s| == l.nbNeurons && i < l.nbNeurons
    ensures GateSum(l, 0, s, x, i) >= 4096.0 ==> GruStep(l, table, s, x)[i] == s[i]
    ensures GateSum(l, 0, s, x, i) <= -4096.0 ==> GruStep(l, table, s, x)[i] == CandidateState(l, table, s, x, i)
  {
    hide SMul, GateSum, CandidateSum, TansigApprox, IsTable, CandidateState;
    var h := CandidateState(l, table, s, x, i);
    SMulUnit(s[i]);
    SMulUnit(h);
    WeightScale(GateSum(l, 0, s, x, i));
    TansigAtTable(table, 0, 0.5 * SMul(WEIGHTS_SCALE, GateSum(l, 0, s, x, i)));
  }

  lemma WeightScale(x: real)
    ensures SMul(WEIGHTS_SCALE, x) == x / 256.0
  {
  }

  /** What the reset gates decide: at 0 the candidate does not see the old state, at 1 it sees all of it. */
  lemma ResetGate(l: GRULayer, s: seq<real>, x: seq<real>, r: seq<real>, i: nat)
    requires |s| == |r| == l.nbNeurons
    ensures (forall m :: 0 <= m < |r| ==> r[m] == 0.0) ==>
      CandidateSum(l, s, x, r, i) == WAt(l.bias, 2 * l.nbNeurons + i)
        + WSum(l.inputWeights, 2 * l.nbNeurons + i, 3 * l.nbNeurons, l.nbInputs, x)
    ensures (forall m :: 0 <= m < |r| ==> r[m] == 1.0) ==>
      CandidateSum(l, s, x, r, i) == WAt(l.bias, 2 * l.nbNeurons + i)
        + WSum(l.inputWeights, 2 * l.nbNeurons + i, 3 * l.nbNeurons, l.nbInputs, x)
        + WSum(l.recurrentWeights, 2 * l.nbNeurons + i, 3 * l.nbNeurons, l.nbNeurons, s)
  {
    hide SMul, WTerm, WAt;
    var w, off, stride, n := l.recurrentWeights, 2 * l.nbNeurons + i, 3 * l.nbNeurons, l.nbNeurons;
    forall m | 0 <= m < n
      ensures r[m] == 0.0 ==> GatedTerm(w, off, stride, s, r, m) == 0.0
      ensures r[m] == 1.0 ==> GatedTerm(w, off, stride, s, r, m) == WTerm(w, off, stride, s, m)
    {
      SMulUnit(WTerm(w, off, stride, s, m));
    }
    if forall m :: 0 <= m < |r| ==> r[m] == 0.0 {
      RSumZero(n, m => GatedTerm(w, off, stride, s, r, m));
    }
    if forall m :: 0 <= m < |r| ==> r[m] == 1.0 {
      RSumCong(n, m => GatedTerm(w, off, stride, s, r, m), m => WTerm(w, off, stride, s, m));
    }
  }

  /** One of the two loops that compute gates (rnn.c:120-139). */
  method ComputeGate(l: GRULayer, table: seq<real>, k: nat, g: array<real>, state: array<real>, input: array<real>)
      returns (inside: bool)
    requires IsGru(l) && IsTable(table) && k < 2 && g.Length == MAX_NEURONS
    requires state.Length == l.nbNeurons && g != state && g != input
    modifies g
    ensures inside <==> Supplied(l.nbNeurons, l.nbInputs, input.Length)
    ensures inside ==> forall i :: 0 <= i < l.nbNeurons ==> g[i] == Gate(l, table, k, state[..], input[..], i)
  {
    hide SMul, WSum, SigmoidApprox, IsTable;
    ghost var xs, ss := input[..], state[..];
    var N := l.nbNeurons;
    var i := 0;
    while i < N
      invariant 0 <= i <= N && input[..] == xs && state[..] == ss && Supplied(i, l.nbInputs, input.Length)
      invariant forall m :: 0 <= m < i ==> g[m] == Gate(l, table, k, ss, xs, m)
    {
      OffsetFits(k, N, i);
      var sum;
      sum, inside := AddColumn(l.bias[k * N + i] as real, l.inputWeights, k * N + i, 3 * N, l.nbInputs, input);
      if !inside {
        return;
      }
      sum, inside := AddColumn(sum, l.recurrentWeights, k * N + i, 3 * N, N, state);
      g[i] := SigmoidApprox(table, SMul(WEIGHTS_SCALE, sum));
      i := i + 1;
    }
    inside := true;
  }

  /** compute_gru (rnn.c:109-156): the state is overwritten only after every neuron has been computed from the old one.
      */
  method ComputeGru(l: GRULayer, table: seq<real>, state: array<real>, input: array<real>) returns (inside: bool)
    requires IsGru(l) && IsTable(table) && state.Length == l.nbNeurons && state != input
    modifies state
    ensures inside <==> Supplied(l.nbNeurons, l.nbInputs, input.Length)
    ensures state[..] == if inside then GruStep(l, table, old(state[..]), input[..]) else old(state[..])
  {
    hide *;
    GruFacts(l);
    ghost var xs, ss := input[..], state[..];
    var N := l.nbNeurons;
    var z := new real[MAX_NEURONS];
    var r := new real[MAX_NEURONS];
    var h := new real[MAX_NEURONS];
    inside := ComputeGate(l, table, 0, z, state, input);
    if !inside {
      assert state[..] == ss;
      return;
    }
    inside := ComputeGate(l, table, 1, r, state, input);
    ghost var zs, rs := z[..], r[..];
    ComputeOutput(l, table, z, r, h, state, input);
    assert input[..] == xs && state[..] == ss;
    ghost var hs := h[..];
    CopyState(h, state, N);
    assert state[..] == hs[..N];
    IsStep(l, table, ss, xs, zs, hs);
    assert input[..] == xs;
  }

  lemma GruFacts(l: GRULayer)
    requires IsGru(l)
    ensures l.nbNeurons <= MAX_NEURONS && |l.bias| == 3 * l.nbNeurons
    ensures |l.inputWeights| == l.nbInputs * (3 * l.nbNeurons)
      && |l.recurrentWeights| == l.nbNeurons * (3 * l.nbNeurons)
  {
  }

  /** The candidate from its sum over any gates that agree with the reset gates. */
  lemma CandidateIs(l: GRULayer, table: seq<real>, s: seq<real>, x: seq<real>, r: seq<real>, i: nat)
    requires IsTable(table) && IsGru(l) && i < l.nbNeurons && 2 * l.nbNeurons + i < |l.bias|
    requires CandidateSum(l, s, x, r, i) == CandidateSum(l, s, x, ResetGates(l, table, s, x), i)
    ensures CandidateState(l, table, s, x, i)
         == Activate(l.activation, table, SMul(WEIGHTS_SCALE,
              l.bias[2 * l.nbNeurons + i] as real
              + WSum(l.inputWeights, 2 * l.nbNeurons + i, 3 * l.nbNeurons, l.nbInputs, x)
              + GatedSum(l.recurrentWeights, 2 * l.nbNeurons + i, 3 * l.nbNeurons, l.nbNeurons, s, r)))
  {
    hide SMul, WSum, GatedSum, Activate, ResetGates, IsTable;
  }

  lemma IsStep(l: GRULayer, table: seq<real>, s: seq<real>, x: seq<real>, z: seq<real>, h: seq<real>)
    requires IsTable(table) && |s| == l.nbNeurons <= |z| && |s| <= |h|
    requires forall i :: 0 <= i < |s| ==> z[i] == Gate(l, table, 0, s, x, i)
    requires forall i :: 0 <= i < |s| ==> h[i] == Blend(z[i], s[i], CandidateState(l, table, s, x, i))
    ensures h[..|s|] == GruStep(l, table, s, x)
  {
    hide Gate, CandidateState, Blend, IsTable;
  }

  /** The loop that computes the output (rnn.c:140-153). */
  method ComputeOutput(l: GRULayer, table: seq<real>, z: array<real>, r: array<real>, h: array<real>,
                       state: array<real>, input: array<real>)
    requires IsGru(l) && IsTable(table) && state.Length == l.nbNeurons
    requires Supplied(l.nbNeurons, l.nbInputs, input.Length)
    requires z.Length == r.Length == h.Length == MAX_NEURONS && h != state && h != input && h != z && h != r
    requires forall i :: 0 <= i < l.nbNeurons ==> r[i] == Gate(l, table, 1, state[..], input[..], i)
    modifies h
    ensures forall i :: 0 <= i < l.nbNeurons ==>
      h[i] == Blend(z[i], state[i], CandidateState(l, table, state[..], input[..], i))
  {
    hide *;
    GruFacts(l);
    SuppliedIs(l.nbNeurons, l.nbInputs, input.Length);
    ghost var xs, ss, rs := input[..], state[..], r[..];
    var N := l.nbNeurons;
    var i := 0;
    while i < N
      invariant 0 <= i <= N && input[..] == xs && state[..] == ss && r[..] == rs
      invariant forall m :: 0 <= m < i ==> h[m] == Blend(z[m], ss[m], CandidateState(l, table, ss, xs, m))
      modifies h
    {
      OffsetFits(2, N, i);
      var sum, _ := AddColumn(l.bias[2 * N + i] as real, l.inputWeights, 2 * N + i, 3 * N, l.nbInputs, input);
      sum := AddGatedColumn(sum, l.recurrentWeights, 2 * N + i, 3 * N, N, state, r);
      GatesSuffice(l, table, ss, xs, rs, i);
      CandidateIs(l, table, ss, xs, rs, i);
      sum := Activate(l.activation, table, SMul(WEIGHTS_SCALE, sum));
      h[i] := Blend(z[i], state[i], sum);
      i := i + 1;
    }
  }

  /** The loop that stores the new state (rnn.c:154-155). */
  method CopyState(h: array<real>, state: array<real>, N: nat)
    requires N == state.Length <= h.Length && h != state
    modifies state
    ensures state[..] == h[..N]
  {
    var i := 0;
    while i < N
      invariant 0 <= i <= N && forall m :: 0 <= m < i ==> state[m] == h[m]
    {
      state[i] := h[i];
      i := i + 1;
    }
  }

  /** Only the first nbNeurons reset gates are read. */
  lemma GatesSuffice(l: GRULayer, table: seq<real>, s: seq<real>, x: seq<real>, r: seq<real>, i: int)
    requires IsTable(table) && |s| == l.nbNeurons && l.nbNeurons <= |r|
    requires forall m :: 0 <= m < l.nbNeurons ==> r[m] == Gate(l, table, 1, s, x, m)
    ensures CandidateSum(l, s, x, r, i) == CandidateSum(l, s, x, ResetGates(l, table, s, x), i)
  {
    hide SMul, WTerm, Gate;
    var off, stride, n := 2 * l.nbNeurons + i, 3 * l.nbNeurons, l.nbNeurons;
    var r' := ResetGates(l, table, s, x);
    RSumCong(n, j => GatedTerm(l.recurrentWeights, off, stride, s, r, j),
             j => GatedTerm(l.recurrentWeights, off, stride, s, r', j));
  }

  // ---- Bounds over whole runs ----

  lemma BlendRange(a: Activation, z: real, s: real, h: real)
    requires 0.0 <= z <= 1.0 && InRange(a, s) && InRange(a, h)
    ensures InRange(a, Blend(z, s, h))
  {
    hide Blend;
    match a {
      case Relu =>
        BlendLower(z, s, h, 0.0);
      case Sigmoid =>
        BlendLower(z, s, h, 0.0);
        BlendUpper(z, s, h, 1.0);
      case Tanh =>
        BlendLower(z, s, h, -1.0);
        BlendUpper(z, s, h, 1.0);
    }
  }

  lemma BlendLower(z: real, s: real, h: real, b: real)
    requires 0.0 <= z <= 1.0 && b <= s && b <= h
    ensures b <= Blend(z, s, h)
  {
    hide SMul;
    SMulBetween(z, b, s, s);
    SMulBetween(1.0 - z, b, h, h);
    SMulLinear(1.0, z, b);
    SMulUnit(b);
  }

  lemma BlendUpper(z: real, s: real, h: real, b: real)
    requires 0.0 <= z <= 1.0 && s <= b && h <= b
    ensures Blend(z, s, h) <= b
  {
    hide SMul;
    SMulBetween(z, s, s, b);
    SMulBetween(1.0 - z, h, h, b);
    SMulLinear(1.0, z, b);
    SMulUnit(b);
  }

  ghost predicate StateInRange(a: Activation, s: seq<real>)
  {
    forall i :: 0 <= i < |s| ==> InRange(a, s[i])
  }

  lemma GruStepRange(l: GRULayer, table: seq<real>, s: seq<real>, x: seq<real>)
    requires IsTable(table) && |s| == l.nbNeurons && StateInRange(l.activation, s)
    ensures StateInRange(l.activation, GruStep(l, table, s, x))
  {
    hide InRange, Activate, GateSum, CandidateSum, Blend, IsTable;
    var n := GruStep(l, table, s, x);
    forall i | 0 <= i < |n|
      ensures InRange(l.activation, n[i])
    {
      var z := Gate(l, table, 0, s, x, i);
      ActivateRange(l.activation, table,
                    SMul(WEIGHTS_SCALE, CandidateSum(l, s, x, ResetGates(l, table, s, x), i)));
      BlendRange(l.activation, z, s[i], CandidateState(l, table, s, x, i));
    }
  }

  /** The state after a run of inputs. */
  ghost function GruRun(l: GRULayer, table: seq<real>, s: seq<real>, xs: seq<seq<real>>): (n: seq<real>)
    requires IsTable(table) && |s| == l.nbNeurons
    ensures |n| == l.nbNeurons
  {
    if xs == [] then s else GruStep(l, table, GruRun(l, table, s, xs[..|xs| - 1]), xs[|xs| - 1])
  }

  /** From the zero state, over any inputs: tanh states stay within 1 of zero, sigmoid states in [0, 1], relu states at
      least 0. */
  lemma {:induction false} GruRunRange(l: GRULayer, table: seq<real>, s: seq<real>, xs: seq<seq<real>>)
    requires IsTable(table) && |s| == l.nbNeurons && forall i :: 0 <= i < |s| ==> s[i] == 0.0
    ensures StateInRange(l.activation, GruRun(l, table, s, xs))
    decreases |xs|
  {
    hide IsTable, GruStep;
    if xs != [] {
      GruRunRange(l, table, s, xs[..|xs| - 1]);
      GruStepRange(l, table, GruRun(l, table, s, xs[..|xs| - 1]), xs[|xs| - 1]);
    }
  }

  // ---- The network ----

  datatype RNNModel = RNNModel(inputDense: DenseLayer, vadGru: GRULayer, noiseGru: GRULayer, denoiseGru: GRULayer,
                               denoiseOutput: DenseLayer, vadOutput: DenseLayer)

  /** What every model has: weights as its dimensions say, and no layer larger than the arrays on the stack. */
  predicate IsShaped(m: RNNModel)
  {
    && IsDense(m.inputDense) && IsGru(m.vadGru) && IsGru(m.noiseGru) && IsGru(m.denoiseGru)
    && IsDense(m.denoiseOutput) && IsDense(m.vadOutput)
  }

  /** The layers fit each other, the features, and the caller's gains and voice activity, as compute_rnn and
      rnnoise_process_frame wire them. */
  predicate Wired(m: RNNModel)
  {
    && Supplied(m.inputDense.nbNeurons, m.inputDense.nbInputs, INPUT_SIZE)
    && Supplied(m.vadGru.nbNeurons, m.vadGru.nbInputs, m.inputDense.nbNeurons)
    && Supplied(m.vadOutput.nbNeurons, m.vadOutput.nbInputs, m.vadGru.nbNeurons) && m.vadOutput.nbNeurons <= 1
    && Supplied(m.noiseGru.nbNeurons, m.noiseGru.nbInputs,
                m.inputDense.nbNeurons + m.vadGru.nbNeurons + INPUT_SIZE)
    && Supplied(m.denoiseGru.nbNeurons, m.denoiseGru.nbInputs,
                m.vadGru.nbNeurons + m.noiseGru.nbNeurons + INPUT_SIZE)
    && Supplied(m.denoiseOutput.nbNeurons, m.denoiseOutput.nbInputs, m.denoiseGru.nbNeurons)
    && m.denoiseOutput.nbNeurons <= NB_BANDS
  }

  datatype Hidden = Hidden(vad: seq<real>, noise: seq<real>, denoise: seq<real>)

  ghost predicate IsHidden(m: RNNModel, s: Hidden)
  {
    |s.vad| == m.vadGru.nbNeurons && |s.noise| == m.noiseGru.nbNeurons && |s.denoise| == m.denoiseGru.nbNeurons
  }

  /** One frame: each layer reads the new state of the layers before it and its own old state. */
  ghost function RnnStep(m: RNNModel, table: seq<real>, s: Hidden, x: seq<real>): (n: Hidden)
    requires IsTable(table) && IsHidden(m, s)
    ensures IsHidden(m, n)
  {
    var dense := DenseOut(m.inputDense, table, x);
    var vad := GruStep(m.vadGru, table, s.vad, dense);
    var noise := GruStep(m.noiseGru, table, s.noise, dense + vad + x);
    Hidden(vad, noise, GruStep(m.denoiseGru, table, s.denoise, vad + noise + x))
  }

  ghost predicate HiddenInRange(m: RNNModel, s: Hidden)
  {
    && StateInRange(m.vadGru.activation, s.vad) && StateInRange(m.noiseGru.activation, s.noise)
    && StateInRange(m.denoiseGru.activation, s.denoise)
  }

  lemma RnnStepRange(m: RNNModel, table: seq<real>, s: Hidden, x: seq<real>)
    requires IsTable(table) && IsHidden(m, s) && HiddenInRange(m, s)
    ensures HiddenInRange(m, RnnStep(m, table, s, x))
  {
    hide StateInRange, GruStep, DenseOut, IsTable;
    var dense := DenseOut(m.inputDense, table, x);
    var vad := GruStep(m.vadGru, table, s.vad, dense);
    var noise := GruStep(m.noiseGru, table, s.noise, dense + vad + x);
    GruStepRange(m.vadGru, table, s.vad, dense);
    GruStepRange(m.noiseGru, table, s.noise, dense + vad + x);
    GruStepRange(m.denoiseGru, table, s.denoise, vad + noise + x);
  }

  class RNNState {
    const model: RNNModel
    const vadGruState: array<real>
    const noiseGruState: array<real>
    const denoiseGruState: array<real>

    ghost predicate Valid()
      reads vadGruState, noiseGruState, denoiseGruState
    {
      && IsShaped(model) && vadGruState.Length == model.vadGru.nbNeurons
      && noiseGruState.Length == model.noiseGru.nbNeurons && denoiseGruState.Length == model.denoiseGru.nbNeurons
      && vadGruState != noiseGruState && vadGruState != denoiseGruState && noiseGruState != denoiseGruState
      && HiddenInRange(model, Value())
    }

    ghost function Value(): Hidden
      reads vadGruState, noiseGruState, denoiseGruState
    {
      Hidden(vadGruState[..], noiseGruState[..], denoiseGruState[..])
    }

    /** The zeroed state that rnnoise_init allocates (denoise.c:271-273). */
    constructor (m: RNNModel)
      requires IsShaped(m)
      ensures Valid() && model == m && fresh(vadGruState) && fresh(noiseGruState) && fresh(denoiseGruState)
      ensures forall i :: 0 <= i < vadGruState.Length ==> vadGruState[i] == 0.0
      ensures forall i :: 0 <= i < noiseGruState.Length ==> noiseGruState[i] == 0.0
      ensures forall i :: 0 <= i < denoiseGruState.Length ==> denoiseGruState[i] == 0.0
    {
      model := m;
      vadGruState := new real[m.vadGru.nbNeurons](_ => 0.0);
      noiseGruState := new real[m.noiseGru.nbNeurons](_ => 0.0);
      denoiseGruState := new real[m.denoiseGru.nbNeurons](_ => 0.0);
    }

    /** compute_rnn (rnn.c:160-178) with the arrays of rnnoise_process_frame (denoise.c:465-467): inside says that every
        write was to an element of its array and every read to one that had been written. */
    method ComputeRnn(table: seq<real>, gains: array<real>, vad: array<real>, input: array<real>)
        returns (inside: bool)
      requires Valid() && IsTable(table)
      requires input.Length == INPUT_SIZE && gains.Length == NB_BANDS && vad.Length == 1
      requires gains != vadGruState && gains != noiseGruState && gains != denoiseGruState && gains != vad
        && gains != input
      requires vad != vadGruState && vad != noiseGruState && vad != denoiseGruState && vad != input
      requires input != vadGruState && input != noiseGruState && input != denoiseGruState
      modifies gains, vad, vadGruState, noiseGruState, denoiseGruState
      ensures inside <==> Wired(model)
      ensures inside ==> Valid() && IsHidden(model, old(Value()))
      ensures inside ==> Value() == RnnStep(model, table, old(Value()), input[..])
      ensures inside ==>
        var dense := DenseOut(model.inputDense, table, input[..]);
        && Value().vad == GruStep(model.vadGru, table, old(Value()).vad, dense)
        && Value().noise == GruStep(model.noiseGru, table, old(Value()).noise, dense + Value().vad + input[..])
        && Value().denoise
           == GruStep(model.denoiseGru, table, old(Value()).denoise, Value().vad + Value().noise + input[..])
      ensures inside ==> vad[..model.vadOutput.nbNeurons] == DenseOut(model.vadOutput, table, Value().vad)
      ensures inside ==> gains[..model.denoiseOutput.nbNeurons] == DenseOut(model.denoiseOutput, table, Value().denoise)
      ensures inside ==>
        forall i :: 0 <= i < model.denoiseOutput.nbNeurons ==> InRange(model.denoiseOutput.activation, gains[i])
      ensures inside ==> forall i :: model.denoiseOutput.nbNeurons <= i < NB_BANDS ==> gains[i] == old(gains[i])
      ensures inside ==> forall i :: 0 <= i < model.vadOutput.nbNeurons ==> InRange(model.vadOutput.activation, vad[i])
    {
      hide *;
      Facts();
      WiredIs(model);
      ghost var s, xs := Value(), input[..];
      var denseOut := new real[model.inputDense.nbNeurons];
      inside := ComputeDense(model.inputDense, table, denseOut, input);
      if !inside {
        return;
      }
      ghost var dense := denseOut[..];
      assert dense == denseOut[..model.inputDense.nbNeurons];
      inside := ComputeGru(model.vadGru, table, vadGruState, denseOut);
      if !inside {
        return;
      }
      ghost var v := vadGruState[..];
      inside := ComputeDense(model.vadOutput, table, vad, vadGruState);
      if !inside {
        return;
      }
      var noiseInput := Joined(denseOut, vadGruState, input);
      inside := ComputeGru(model.noiseGru, table, noiseGruState, noiseInput);
      if !inside {
        return;
      }
      ghost var n := noiseGruState[..];
      var denoiseInput := Joined(vadGruState, noiseGruState, input);
      inside := ComputeGru(model.denoiseGru, table, denoiseGruState, denoiseInput);
      if !inside {
        return;
      }
      ghost var d := denoiseGruState[..];
      inside := ComputeDense(model.denoiseOutput, table, gains, denoiseGruState);
      if !inside {
        return;
      }
      assert vadGruState[..] == v && noiseGruState[..] == n && input[..] == xs;
      StepIs(table, s, xs, dense, v, n, d);
    }

    lemma Facts()
      requires Valid()
      ensures IsDense(model.inputDense) && IsGru(model.vadGru) && IsGru(model.noiseGru) && IsGru(model.denoiseGru)
      ensures IsDense(model.denoiseOutput) && IsDense(model.vadOutput)
      ensures INPUT_SIZE == 42 && MAX_NEURONS == 128 && model.inputDense.nbNeurons <= 128
      ensures model.vadGru.nbNeurons <= 128 && model.noiseGru.nbNeurons <= 128
      ensures vadGruState.Length == model.vadGru.nbNeurons
      ensures noiseGruState.Length == model.noiseGru.nbNeurons && denoiseGruState.Length == model.denoiseGru.nbNeurons
      ensures vadGruState != noiseGruState && vadGruState != denoiseGruState && noiseGruState != denoiseGruState
      ensures Value() == Hidden(vadGruState[..], noiseGruState[..], denoiseGruState[..]) && IsHidden(model, Value())
      ensures IsShaped(model) && HiddenInRange(model, Value())
    {
    }

    /** The arrays hold one step of the specification. */
    lemma StepIs(table: seq<real>, s: Hidden, x: seq<real>, dense: seq<real>, v: seq<real>, n: seq<real>, d: seq<real>)
      requires IsTable(table) && IsHidden(model, s) && HiddenInRange(model, s) && IsShaped(model)
      requires vadGruState.Length == model.vadGru.nbNeurons
      requires noiseGruState.Length == model.noiseGru.nbNeurons && denoiseGruState.Length == model.denoiseGru.nbNeurons
      requires vadGruState != noiseGruState && vadGruState != denoiseGruState && noiseGruState != denoiseGruState
      requires dense == DenseOut(model.inputDense, table, x) && |s.vad| == model.vadGru.nbNeurons
      requires |s.noise| == model.noiseGru.nbNeurons && |s.denoise| == model.denoiseGru.nbNeurons
      requires v == GruStep(model.vadGru, table, s.vad, dense)
        && n == GruStep(model.noiseGru, table, s.noise, dense + v + x)
      requires d == GruStep(model.denoiseGru, table, s.denoise, v + n + x)
      requires vadGruState[..] == v && noiseGruState[..] == n && denoiseGruState[..] == d
      ensures Valid() && Value() == RnnStep(model, table, s, x)
      ensures Value().vad == v && Value().noise == n && Value().denoise == d
    {
      hide IsShaped, HiddenInRange, GruStep, DenseOut, IsTable;
      RnnStepRange(model, table, s, x);
    }
  }

  /** The layers' fit, unfolded once. */
  lemma WiredIs(m: RNNModel)
    ensures Wired(m) <==>
      && Supplied(m.inputDense.nbNeurons, m.inputDense.nbInputs, INPUT_SIZE)
      && Supplied(m.vadGru.nbNeurons, m.vadGru.nbInputs, m.inputDense.nbNeurons)
      && Supplied(m.vadOutput.nbNeurons, m.vadOutput.nbInputs, m.vadGru.nbNeurons) && m.vadOutput.nbNeurons <= 1
      && Supplied(m.noiseGru.nbNeurons, m.noiseGru.nbInputs,
                  m.inputDense.nbNeurons + m.vadGru.nbNeurons + INPUT_SIZE)
      && Supplied(m.denoiseGru.nbNeurons, m.denoiseGru.nbInputs,
                  m.vadGru.nbNeurons + m.noiseGru.nbNeurons + INPUT_SIZE)
      && Supplied(m.denoiseOutput.nbNeurons, m.denoiseOutput.nbInputs, m.denoiseGru.nbNeurons)
      && m.denoiseOutput.nbNeurons <= NB_BANDS
  {
  }

  /** The loops that lay three vectors end to end (rnn.c:168-170 and 173-175); both arrays have room for three layers of
      the largest size, and only what is written counts here. */
  method Joined(a: array<real>, b: array<real>, c: array<real>) returns (j: array<real>)
    requires a.Length + b.Length + c.Length <= 3 * MAX_NEURONS
    ensures fresh(j) && j[..] == a[..] + b[..] + c[..]
  {
    j := new real[a.Length + b.Length + c.Length];
    var i := 0;
    while i < a.Length
      invariant 0 <= i <= a.Length && j[..i] == a[..i]
      modifies j
    {
      j[i] := a[i];
      i := i + 1;
    }
    i := 0;
    while i < b.Length
      invariant 0 <= i <= b.Length && j[..a.Length + i] == a[..] + b[..i]
      modifies j
    {
      j[i + a.Length] := b[i];
      i := i + 1;
    }
    i := 0;
    while i < c.Length
      invariant 0 <= i <= c.Length && j[..a.Length + b.Length + i] == a[..] + b[..] + c[..i]
      modifies j
    {
      j[i + a.Length + b.Length] := c[i];
      i := i + 1;
    }
  }
}
