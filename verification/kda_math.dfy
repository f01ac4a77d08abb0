// The arithmetic of Kimi Delta Attention as its reference scripts write it
// (tools/gen_kda_golden.py, tools/glm53_numpy_ref.py). Float operations are
// uninterpreted, so two results are equal only when the same operations are
// applied to the same values in the same order.
module KdaMath {

  /** A float type: its operations, the vector sum and the constants of the model. */
  datatype Ops<!F> = Ops(
    add: (F, F) -> F, sub: (F, F) -> F, mul: (F, F) -> F, div: (F, F) -> F,
    neg: F -> F, exp: F -> F, sqrt: F -> F, sum: seq<F> -> F, mean: seq<F> -> F,
    zero: F, one: F, minusOne: F, lowerBound: F, scale: F, l2Eps: F, rmsEps: F, width: F)

  /** The one law assumed: multiplying by minus one negates. */
  ghost predicate NegatesByMinusOne<F(!new)>(o: Ops<F>) {
    forall x :: o.mul(o.minusOne, x) == o.neg(x)
  }

  type Vec<F> = seq<F>

  /** S[v][c], rows by value channel, columns by key channel. */
  type Matrix<F> = seq<Vec<F>>

  // ---- vectors ----------------------------------------------------------------

  /** Elementwise product of two vectors of one length. */
  function Times<F>(o: Ops<F>, a: Vec<F>, b: Vec<F>): (r: Vec<F>)
    requires |a| == |b|
    ensures |r| == |a| && forall i :: 0 <= i < |a| ==> r[i] == o.mul(a[i], b[i])
  {
    seq(|a|, i requires 0 <= i < |a| => o.mul(a[i], b[i]))
  }

  predicate Square<F>(s: Matrix<F>, d: nat) {
    |s| == d && forall v :: 0 <= v < d ==> |s[v]| == d
  }

  // ---- the convolution ----------------------------------------------------------

  const WINDOW := 3

  /** sigmoid_f32: 1 / (1 + exp(-1 * x)) */
  function Sigmoid<F>(o: Ops<F>, x: F): F {
    o.div(o.one, o.add(o.one, o.exp(o.mul(o.minusOne, x))))
  }

  /** The recheck's own sigmoid: 1 / (1 + exp(-x)) */
  function SigmoidNeg<F>(o: Ops<F>, x: F): F {
    o.div(o.one, o.add(o.one, o.exp(o.neg(x))))
  }

  function Silu<F>(o: Ops<F>, x: F): F {
    o.mul(x, Sigmoid(o, x))
  }

  lemma SigmoidsAgree<F(!new)>(o: Ops<F>, x: F)
    requires NegatesByMinusOne(o)
    ensures Sigmoid(o, x) == SigmoidNeg(o, x)
  {
    assert o.mul(o.minusOne, x) == o.neg(x);
  }

  /** One output of the width-4 convolution before SiLU: four taps added in order, starting from zero. */
  function Taps<F>(o: Ops<F>, a: F, b: F, c: F, d: F, w0: F, w1: F, w2: F, w3: F): F {
    o.add(o.add(o.add(o.add(o.zero, o.mul(a, w0)), o.mul(b, w1)), o.mul(c, w2)), o.mul(d, w3))
  }

  // ---- one token of one head ------------------------------------------------------

  /** x / sqrt(sum(x * x) + eps) */
  function L2Norm<F>(o: Ops<F>, x: Vec<F>): (r: Vec<F>)
    ensures |r| == |x|
  {
    var n := o.sqrt(o.add(o.sum(Times(o, x, x)), o.l2Eps));
    seq(|x|, i requires 0 <= i < |x| => o.div(x[i], n))
  }

  function Scaled<F>(o: Ops<F>, x: Vec<F>): (r: Vec<F>)
    ensures |r| == |x|
  {
    seq(|x|, i requires 0 <= i < |x| => o.mul(x[i], o.scale))
  }

  /** exp(LOWER_BOUND / (1 + exp(-(amp * (g + bias))))) per key channel */
  function Decay<F>(o: Ops<F>, amp: F, g: Vec<F>, bias: Vec<F>): (r: Vec<F>)
    requires |g| == |bias|
    ensures |r| == |g|
  {
    seq(|g|, c requires 0 <= c < |g| =>
      o.exp(o.div(o.lowerBound, o.add(o.one, o.exp(o.neg(o.mul(amp, o.add(g[c], bias[c]))))))))
  }

  /** S[v][c] *= decay[c] */
  function Decayed<F>(o: Ops<F>, s: Matrix<F>, decay: Vec<F>): (r: Matrix<F>)
    requires Square(s, |decay|)
    ensures Square(r, |decay|)
  {
    seq(|s|, v requires 0 <= v < |s| => Times(o, s[v], decay))
  }

  /** (v - sum(S * k, per row)) * beta */
  function Errors<F>(o: Ops<F>, s: Matrix<F>, k: Vec<F>, v: Vec<F>, beta: F): (r: Vec<F>)
    requires Square(s, |k|) && |v| == |k|
    ensures |r| == |k|
  {
    seq(|s|, i requires 0 <= i < |s| => o.mul(o.sub(v[i], o.sum(Times(o, s[i], k))), beta))
  }

  /** row[c] += err * k[c] */
  function RowWritten<F>(o: Ops<F>, row: Vec<F>, k: Vec<F>, err: F): (r: Vec<F>)
    requires |row| == |k|
    ensures |r| == |row|
  {
    seq(|row|, c requires 0 <= c < |row| => o.add(row[c], o.mul(err, k[c])))
  }

  /** S[v][c] += err[v] * k[c] */
  function Written<F>(o: Ops<F>, s: Matrix<F>, k: Vec<F>, err: Vec<F>): (r: Matrix<F>)
    requires Square(s, |k|) && |err| == |k|
    ensures Square(r, |k|)
  {
    seq(|s|, v requires 0 <= v < |s| => RowWritten(o, s[v], k, err[v]))
  }

  /** The state after one token: decay first, then the rank-one write of the delta error. */
  function Step<F>(o: Ops<F>, s: Matrix<F>, k: Vec<F>, v: Vec<F>, decay: Vec<F>, beta: F): (r: Matrix<F>)
    requires Square(s, |decay|) && |k| == |v| == |decay|
    ensures Square(r, |decay|)
  {
    var low := Decayed(o, s, decay);
    Written(o, low, k, Errors(o, low, k, v, beta))
  }

  /** core[v] = sum(S[v] * q), read after the write */
  function Read<F>(o: Ops<F>, s: Matrix<F>, q: Vec<F>): (r: Vec<F>)
    requires Square(s, |q|)
    ensures |r| == |q|
  {
    seq(|s|, v requires 0 <= v < |s| => o.sum(Times(o, s[v], q)))
  }

  /** The gated RMS norm, from the mean of the squares: (core / rms) * w * sigmoid(g) */
  function Gated<F>(o: Ops<F>, core: Vec<F>, ms: F, w: Vec<F>, g: Vec<F>): (r: Vec<F>)
    requires |w| == |core| && |g| == |core|
    ensures |r| == |core|
  {
    var rms := o.sqrt(o.add(ms, o.rmsEps));
    seq(|core|, v requires 0 <= v < |core| => o.mul(o.mul(o.div(core[v], rms), w[v]), Sigmoid(o, g[v])))
  }
}
