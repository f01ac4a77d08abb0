// Kimi Delta Attention number by number (tools/gen_kda_golden.py): every entry of
// the state, the core and the normed output as one scalar expression in the
// inputs, with no vector operation of the run in it.
module KdaEntries {
  import opened KdaMath
  import opened KdaGolden

  // ---- the inputs of one token ------------------------------------------------------

  /** Channel d of head h at token r; before the first token it is the initial window's. */
  function InputAt<F>(c: Case<F>, x: Conv<F>, h: int, d: int, r: int): F {
    if r < 0 then x.init(h * c.dim + d, r + 3) else x.raw(r, h, d)
  }

  function SigmoidOf<F>(o: Ops<F>, x: F): F {
    o.div(o.one, o.add(o.one, o.exp(o.mul(o.minusOne, x))))
  }

  /** The last four inputs times the four taps, oldest first, then SiLU. */
  function Filtered<F>(c: Case<F>, x: Conv<F>, h: int, d: int, t: int): F {
    var o, ch := c.o, h * c.dim + d;
    var y0 := o.add(o.zero, o.mul(InputAt(c, x, h, d, t - 3), x.weight(ch, 0)));
    var y1 := o.add(y0, o.mul(InputAt(c, x, h, d, t - 2), x.weight(ch, 1)));
    var y2 := o.add(y1, o.mul(InputAt(c, x, h, d, t - 1), x.weight(ch, 2)));
    var y := o.add(y2, o.mul(InputAt(c, x, h, d, t), x.weight(ch, 3)));
    o.mul(y, SigmoidOf(o, y))
  }

  /** sqrt(sum of squares + eps) of one head's vector */
  function NormOf<F>(c: Case<F>, x: Conv<F>, h: int, t: int): F {
    var o := c.o;
    var squares := seq(c.dim, d requires 0 <= d < c.dim => o.mul(Filtered(c, x, h, d, t), Filtered(c, x, h, d, t)));
    o.sqrt(o.add(o.sum(squares), o.l2Eps))
  }

  function KeyAt<F>(c: Case<F>, h: int, t: int, d: int): F {
    c.o.div(Filtered(c, c.k, h, d, t), NormOf(c, c.k, h, t))
  }

  function QueryAt<F>(c: Case<F>, h: int, t: int, d: int): F {
    c.o.mul(c.o.div(Filtered(c, c.q, h, d, t), NormOf(c, c.q, h, t)), c.o.scale)
  }

  /** exp(LOWER_BOUND / (1 + exp(-(exp(A_log) * (g + bias))))) */
  function DecayAt<F>(c: Case<F>, h: int, t: int, d: int): F {
    var o := c.o;
    var gate := o.mul(o.exp(c.aLog(h)), o.add(c.rawG(t, h, d), c.dtBias(h, d)));
    o.exp(o.div(o.lowerBound, o.add(o.one, o.exp(o.neg(gate)))))
  }

  // ---- state, core, output ------------------------------------------------------------

  /** The state entry before token t, decayed by token t. */
  function LowAt<F>(c: Case<F>, h: int, t: nat, v: int, k: int): F
    decreases t, 1
  {
    c.o.mul(StateAt(c, h, t, v, k), DecayAt(c, h, t, k))
  }

  /** beta times the difference between the value and what the decayed state reads at the key. */
  function ErrorAt<F>(c: Case<F>, h: int, t: nat, v: int): F
    decreases t, 2
  {
    var o := c.o;
    var read := o.sum(seq(c.dim, k requires 0 <= k < c.dim => o.mul(LowAt(c, h, t, v, k), KeyAt(c, h, t, k))));
    o.mul(o.sub(Filtered(c, c.v, h, v, t), read), SigmoidOf(o, c.betaRaw(t, h)))
  }

  /** Entry (v, k) of head h's state after t tokens: decay, then the error written along the key. */
  function StateAt<F>(c: Case<F>, h: int, t: nat, v: int, k: int): F
    decreases t, 0
  {
    if t == 0 then c.s0(h, v, k)
    else c.o.add(LowAt(c, h, t - 1, v, k), c.o.mul(ErrorAt(c, h, t - 1, v), KeyAt(c, h, t - 1, k)))
  }

  /** Read after the write. */
  function CoreAt<F>(c: Case<F>, h: int, t: nat, v: int): F {
    c.o.sum(seq(c.dim, k requires 0 <= k < c.dim => c.o.mul(StateAt(c, h, t + 1, v, k), QueryAt(c, h, t, k))))
  }

  /** (core / sqrt(sum of squares / width + eps)) * weight * sigmoid(gate) */
  function OnormAt<F>(c: Case<F>, h: int, t: nat, v: int): F {
    var o := c.o;
    var squares := o.sum(seq(c.dim, i requires 0 <= i < c.dim => o.mul(CoreAt(c, h, t, i), CoreAt(c, h, t, i))));
    var rms := o.sqrt(o.add(o.div(squares, o.width), o.rmsEps));
    o.mul(o.mul(o.div(CoreAt(c, h, t, v), rms), c.oNormW(v)), SigmoidOf(o, c.g2Raw(t, h, v)))
  }

  // ---- the run has these entries ------------------------------------------------------

  lemma ConvEntry<F>(c: Case<F>, x: Conv<F>, h: nat, t: nat, d: nat)
    requires d < c.dim
    ensures ConvVec(c, x, h, t)[d] == Filtered(c, x, h, d, t)
  {
    var ch := h * c.dim + d;
    PaddedEntry(c, x, h, d, t);
    PaddedEntry(c, x, h, d, t + 1);
    PaddedEntry(c, x, h, d, t + 2);
    PaddedEntry(c, x, h, d, t + 3);
    assert ConvVec(c, x, h, t)[d] == ConvOut(c.o, x, h, d, ch, t);
  }

  lemma PaddedEntry<F>(c: Case<F>, x: Conv<F>, h: nat, d: nat, r: nat)
    ensures Padded(x, h, d, h * c.dim + d, r) == InputAt(c, x, h, d, r - 3)
  {
  }

  lemma SquareSum<F>(c: Case<F>, x: Conv<F>, h: nat, t: nat)
    ensures var y := ConvVec(c, x, h, t);
      c.o.sqrt(c.o.add(c.o.sum(Times(c.o, y, y)), c.o.l2Eps)) == NormOf(c, x, h, t)
  {
    var y := ConvVec(c, x, h, t);
    var squares := seq(c.dim, d requires 0 <= d < c.dim => c.o.mul(Filtered(c, x, h, d, t), Filtered(c, x, h, d, t)));
    forall d | 0 <= d < c.dim ensures Times(c.o, y, y)[d] == squares[d] {
      ConvEntry(c, x, h, t, d);
    }
    assert Times(c.o, y, y) == squares;
  }

  lemma KeyEntry<F>(c: Case<F>, h: nat, t: nat, d: nat)
    requires d < c.dim
    ensures KeyOf(c, h, t)[d] == KeyAt(c, h, t, d)
  {
    SquareSum(c, c.k, h, t);
    ConvEntry(c, c.k, h, t, d);
  }

  lemma QueryEntry<F>(c: Case<F>, h: nat, t: nat, d: nat)
    requires d < c.dim
    ensures Query(c, h, t)[d] == QueryAt(c, h, t, d)
  {
    SquareSum(c, c.q, h, t);
    ConvEntry(c, c.q, h, t, d);
  }

  lemma DecayEntry<F>(c: Case<F>, h: nat, t: nat, d: nat)
    requires d < c.dim
    ensures DecayOf(c, h, t)[d] == DecayAt(c, h, t, d)
  {
  }

  /** One token's step on one entry, from the entries before. */
  lemma StepEntry<F>(o: Ops<F>, s: Matrix<F>, key: Vec<F>, value: Vec<F>, decay: Vec<F>, beta: F, v: nat, k: nat,
                     low: Vec<F>)
    requires Square(s, |decay|) && |key| == |value| == |decay| == |low| && v < |s| && k < |decay|
    requires forall i :: 0 <= i < |low| ==> low[i] == o.mul(s[v][i], decay[i])
    ensures Step(o, s, key, value, decay, beta)[v][k]
      == o.add(low[k], o.mul(o.mul(o.sub(value[v], o.sum(Times(o, low, key))), beta), key[k]))
  {
    var d := Decayed(o, s, decay);
    assert d[v] == low;
    var e := Errors(o, d, key, value, beta);
    assert e[v] == o.mul(o.sub(value[v], o.sum(Times(o, low, key))), beta);
    assert Written(o, d, key, e)[v] == RowWritten(o, d[v], key, e[v]);
  }

  function LowRow<F>(c: Case<F>, h: nat, t: nat, v: nat): (r: Vec<F>)
    ensures |r| == c.dim
  {
    seq(c.dim, k requires 0 <= k < c.dim => LowAt(c, h, t, v, k))
  }

  lemma ErrorEntry<F>(c: Case<F>, h: nat, t: nat, v: nat)
    requires v < c.dim
    ensures ErrorAt(c, h, t, v)
      == c.o.mul(c.o.sub(ConvVec(c, c.v, h, t)[v], c.o.sum(Times(c.o, LowRow(c, h, t, v), KeyOf(c, h, t)))),
                 Sigmoid(c.o, c.betaRaw(t, h)))
  {
    var products := seq(c.dim, k requires 0 <= k < c.dim => c.o.mul(LowAt(c, h, t, v, k), KeyAt(c, h, t, k)));
    forall k | 0 <= k < c.dim ensures Times(c.o, LowRow(c, h, t, v), KeyOf(c, h, t))[k] == products[k] {
      KeyEntry(c, h, t, k);
    }
    assert Times(c.o, LowRow(c, h, t, v), KeyOf(c, h, t)) == products;
    ConvEntry(c, c.v, h, t, v);
  }

  /** Every entry of every state. */
  lemma {:induction false} StateEntry<F>(c: Case<F>, h: nat, t: nat, v: nat, k: nat)
    requires v < c.dim && k < c.dim
    ensures State(c, h, t)[v][k] == StateAt(c, h, t, v, k)
    decreases t, 2
  {
    if t > 0 {
      EntryAfter(c, h, t - 1, v, k);
    } else {
      FirstEntry(c, h, v, k);
    }
  }

  lemma {:induction false} EntryAfter<F>(c: Case<F>, h: nat, t: nat, v: nat, k: nat)
    requires v < c.dim && k < c.dim
    ensures State(c, h, t + 1)[v][k] == StateAt(c, h, t + 1, v, k)
    decreases t + 1, 1
  {
    StateRow(c, h, t, v);
    NextEntry(c, h, t, v, k);
  }

  lemma FirstEntry<F>(c: Case<F>, h: nat, v: nat, k: nat)
    requires v < c.dim && k < c.dim
    ensures State(c, h, 0)[v][k] == c.s0(h, v, k)
  {
  }

  lemma {:induction false} StateRow<F>(c: Case<F>, h: nat, t: nat, v: nat)
    requires v < c.dim
    ensures forall k :: 0 <= k < c.dim ==> c.o.mul(State(c, h, t)[v][k], DecayOf(c, h, t)[k]) == LowRow(c, h, t, v)[k]
    decreases t + 1, 0
  {
    forall k | 0 <= k < c.dim
      ensures c.o.mul(State(c, h, t)[v][k], DecayOf(c, h, t)[k]) == LowRow(c, h, t, v)[k]
    {
      StateEntry(c, h, t, v, k);
      DecayEntry(c, h, t, k);
    }
  }

  lemma NextEntry<F>(c: Case<F>, h: nat, t: nat, v: nat, k: nat)
    requires v < c.dim && k < c.dim
    requires forall i :: 0 <= i < c.dim ==> c.o.mul(State(c, h, t)[v][i], DecayOf(c, h, t)[i]) == LowRow(c, h, t, v)[i]
    ensures State(c, h, t + 1)[v][k] == StateAt(c, h, t + 1, v, k)
  {
    var beta := Sigmoid(c.o, c.betaRaw(t, h));
    StepEntry(c.o, State(c, h, t), KeyOf(c, h, t), ConvVec(c, c.v, h, t), DecayOf(c, h, t), beta, v, k,
              LowRow(c, h, t, v));
    ErrorEntry(c, h, t, v);
    KeyEntry(c, h, t, k);
  }

  /** Every entry of the core. */
  lemma CoreEntry<F>(c: Case<F>, h: nat, t: nat, v: nat)
    requires v < c.dim
    ensures Core(c, h, t)[v] == CoreAt(c, h, t, v)
  {
    var s, q := State(c, h, t + 1), Query(c, h, t);
    var products := seq(c.dim, k requires 0 <= k < c.dim => c.o.mul(StateAt(c, h, t + 1, v, k), QueryAt(c, h, t, k)));
    forall k | 0 <= k < c.dim ensures Times(c.o, s[v], q)[k] == products[k] {
      StateEntry(c, h, t + 1, v, k);
      QueryEntry(c, h, t, k);
    }
    assert Times(c.o, s[v], q) == products;
  }

  /** Every entry of the normed output. */
  lemma OnormEntry<F>(c: Case<F>, h: nat, t: nat, v: nat)
    requires v < c.dim
    ensures Onorm(c, h, t)[v] == OnormAt(c, h, t, v)
  {
    var core := Core(c, h, t);
    var squares := seq(c.dim, i requires 0 <= i < c.dim => c.o.mul(CoreAt(c, h, t, i), CoreAt(c, h, t, i)));
    forall i | 0 <= i < c.dim ensures Times(c.o, core, core)[i] == squares[i] {
      CoreEntry(c, h, t, i);
    }
    assert Times(c.o, core, core) == squares;
    CoreEntry(c, h, t, v);
  }
}
