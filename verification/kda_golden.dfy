// The golden generator for Kimi Delta Attention (tools/gen_kda_golden.py): the
// run over all heads in lockstep, and the recheck of one token of one head,
// which is written with other loops. Tensors that are only read are functions
// of their indices.
module KdaGolden {
  import opened IntMath
  import opened KdaMath

  /** wq, wk or wv by [channel][tap], the raw input by [token][head][dim], the initial window by [channel][age]. */
  datatype Conv<!F> = Conv(raw: (int, int, int) -> F, weight: (int, int) -> F, init: (int, int) -> F)

  datatype Case<!F> = Case(
    o: Ops<F>, tokens: nat, heads: nat, dim: nat,
    q: Conv<F>, k: Conv<F>, v: Conv<F>,
    aLog: int -> F, dtBias: (int, int) -> F, oNormW: int -> F,
    rawG: (int, int, int) -> F, g2Raw: (int, int, int) -> F, betaRaw: (int, int) -> F,
    s0: (int, int, int) -> F)

  // ---- what token t of head h is ------------------------------------------------

  /** Row r of the input padded in front with the initial window, for one channel. */
  function Padded<F>(x: Conv<F>, h: int, d: int, ch: int, r: int): F {
    if r < WINDOW then x.init(ch, r) else x.raw(r - WINDOW, h, d)
  }

  function ConvOut<F>(o: Ops<F>, x: Conv<F>, h: int, d: int, ch: int, t: int): F {
    Silu(o, Taps(o, Padded(x, h, d, ch, t), Padded(x, h, d, ch, t + 1), Padded(x, h, d, ch, t + 2),
                 Padded(x, h, d, ch, t + 3), x.weight(ch, 0), x.weight(ch, 1), x.weight(ch, 2), x.weight(ch, 3)))
  }

  function ConvVec<F>(c: Case<F>, x: Conv<F>, h: nat, t: nat): (r: Vec<F>)
    ensures |r| == c.dim
  {
    seq(c.dim, d requires 0 <= d < c.dim => ConvOut(c.o, x, h, d, h * c.dim + d, t))
  }

  function Row<F>(n: nat, f: int -> F): (r: Vec<F>)
    ensures |r| == n && forall i :: 0 <= i < n ==> r[i] == f(i)
  {
    seq(n, i requires 0 <= i < n => f(i))
  }

  function Query<F>(c: Case<F>, h: nat, t: nat): (r: Vec<F>)
    ensures |r| == c.dim
  {
    Scaled(c.o, L2Norm(c.o, ConvVec(c, c.q, h, t)))
  }

  function KeyOf<F>(c: Case<F>, h: nat, t: nat): (r: Vec<F>)
    ensures |r| == c.dim
  {
    L2Norm(c.o, ConvVec(c, c.k, h, t))
  }

  function DecayOf<F>(c: Case<F>, h: nat, t: nat): (r: Vec<F>)
    ensures |r| == c.dim
  {
    Decay(c.o, c.o.exp(c.aLog(h)), Row(c.dim, d => c.rawG(t, h, d)), Row(c.dim, d => c.dtBias(h, d)))
  }

  function InitialState<F>(c: Case<F>, h: nat): (r: Matrix<F>)
    ensures Square(r, c.dim)
  {
    seq(c.dim, v requires 0 <= v < c.dim => Row(c.dim, k => c.s0(h, v, k)))
  }

  /** Head h's state after t tokens. */
  function State<F>(c: Case<F>, h: nat, t: nat): (r: Matrix<F>)
    ensures Square(r, c.dim)
  {
    if t == 0 then InitialState(c, h)
    else
      Step(c.o, State(c, h, t - 1), KeyOf(c, h, t - 1), ConvVec(c, c.v, h, t - 1), DecayOf(c, h, t - 1),
           Sigmoid(c.o, c.betaRaw(t - 1, h)))
  }

  function Core<F>(c: Case<F>, h: nat, t: nat): (r: Vec<F>)
    ensures |r| == c.dim
  {
    Read(c.o, State(c, h, t + 1), Query(c, h, t))
  }

  function OutGate<F>(c: Case<F>, h: nat, t: nat): (r: Vec<F>)
    ensures |r| == c.dim
  {
    Row(c.dim, v => c.g2Raw(t, h, v))
  }

  function Onorm<F>(c: Case<F>, h: nat, t: nat): (r: Vec<F>)
    ensures |r| == c.dim
  {
    var core := Core(c, h, t);
    Gated(c.o, core, c.o.div(c.o.sum(Times(c.o, core, core)), c.o.width),
          Row(c.dim, c.oNormW), OutGate(c, h, t))
  }

  // ---- run_kda --------------------------------------------------------------------

  /** The padded input as [row][channel]: channel ch is dimension ch % dim of head ch / dim. */
  function Flat<F>(c: Case<F>, x: Conv<F>, r: int, ch: nat): F
    requires c.dim > 0
  {
    Padded(x, FloorDiv(ch, c.dim), ch % c.dim, ch, r)
  }

  function FlatOut<F>(c: Case<F>, x: Conv<F>, t: int, ch: nat): F
    requires c.dim > 0
  {
    ConvOut(c.o, x, FloorDiv(ch, c.dim), ch % c.dim, ch, t)
  }

  lemma ChannelOf(dim: nat, h: nat, d: nat)
    requires d < dim
    ensures FloorDiv(h * dim + d, dim) == h && (h * dim + d) % dim == d
  {
    DivModUnique(h * dim + d, h, dim, d);
  }

  /** The first j taps of one output. */
  function FirstTaps<F>(c: Case<F>, x: Conv<F>, t: int, ch: nat, j: nat): F
    requires c.dim > 0
  {
    if j == 0 then c.o.zero
    else c.o.add(FirstTaps(c, x, t, ch, j - 1), c.o.mul(Flat(c, x, t + j - 1, ch), x.weight(ch, j - 1)))
  }

  lemma NextTap<F>(c: Case<F>, x: Conv<F>, t: int, ch: nat, j: nat)
    requires c.dim > 0
    ensures FirstTaps(c, x, t, ch, j + 1)
      == c.o.add(FirstTaps(c, x, t, ch, j), c.o.mul(Flat(c, x, t + j, ch), x.weight(ch, j)))
  {
  }

  lemma FourTaps<F>(c: Case<F>, x: Conv<F>, t: int, ch: nat)
    requires c.dim > 0
    ensures Silu(c.o, FirstTaps(c, x, t, ch, 4)) == FlatOut(c, x, t, ch)
  {
    NextTap(c, x, t, ch, 0);
    NextTap(c, x, t, ch, 1);
    NextTap(c, x, t, ch, 2);
    NextTap(c, x, t, ch, 3);
  }

  predicate Grid<F>(a: seq<Vec<F>>, n: nat, m: nat) {
    |a| == n && forall i :: 0 <= i < n ==> |a[i]| == m
  }

  ghost predicate IsPadded<F>(c: Case<F>, x: Conv<F>, padded: seq<Vec<F>>)
    requires c.dim > 0
  {
    && Grid(padded, c.tokens + WINDOW, c.heads * c.dim)
    && forall r, ch :: 0 <= r < |padded| && 0 <= ch < |padded[r]| ==> padded[r][ch] == Flat(c, x, r, ch)
  }

  ghost predicate HasTaps<F>(c: Case<F>, x: Conv<F>, acc: seq<Vec<F>>, j: nat)
    requires c.dim > 0
  {
    && Grid(acc, c.tokens, c.heads * c.dim)
    && forall t, ch :: 0 <= t < |acc| && 0 <= ch < |acc[t]| ==> acc[t][ch] == FirstTaps(c, x, t, ch, j)
  }

  ghost predicate IsConv<F>(c: Case<F>, x: Conv<F>, out: seq<Vec<F>>)
    requires c.dim > 0
  {
    && Grid(out, c.tokens, c.heads * c.dim)
    && forall t, ch :: 0 <= t < |out| && 0 <= ch < |out[t]| ==> out[t][ch] == FlatOut(c, x, t, ch)
  }

  /** conv_forward: all tokens and channels at once, tap by tap. */
  method ConvForward<F>(c: Case<F>, x: Conv<F>) returns (out: seq<Vec<F>>, padded: seq<Vec<F>>)
    requires c.dim > 0
    ensures IsConv(c, x, out) && IsPadded(c, x, padded)
  {
    var n, channels := c.tokens, c.heads * c.dim;
    padded := seq(n + WINDOW, r requires 0 <= r < n + WINDOW =>
      seq(channels, ch requires 0 <= ch < channels => Flat(c, x, r, ch)));
    var acc := seq(n, t requires 0 <= t < n => seq(channels, ch requires 0 <= ch < channels => c.o.zero));
    for j := 0 to 4
      invariant HasTaps(c, x, acc, j)
    {
      acc := AddTap(c, x, acc, padded, j);
    }
    out := AllSilu(c, x, acc);
  }

  /** acc + padded[j:j+T] * w[:, j] */
  method AddTap<F>(c: Case<F>, x: Conv<F>, acc: seq<Vec<F>>, padded: seq<Vec<F>>, j: nat) returns (sum: seq<Vec<F>>)
    requires c.dim > 0 && j < 4 && HasTaps(c, x, acc, j) && IsPadded(c, x, padded)
    ensures HasTaps(c, x, sum, j + 1)
  {
    var n, channels := c.tokens, c.heads * c.dim;
    sum := seq(n, t requires 0 <= t < n =>
      seq(channels, ch requires 0 <= ch < channels =>
        c.o.add(acc[t][ch], c.o.mul(padded[t + j][ch], x.weight(ch, j)))));
    forall t, ch | 0 <= t < n && 0 <= ch < channels ensures sum[t][ch] == FirstTaps(c, x, t, ch, j + 1) {
      NextTap(c, x, t, ch, j);
      assert padded[t + j][ch] == Flat(c, x, t + j, ch);
    }
  }

  method AllSilu<F>(c: Case<F>, x: Conv<F>, acc: seq<Vec<F>>) returns (out: seq<Vec<F>>)
    requires c.dim > 0 && HasTaps(c, x, acc, 4)
    ensures IsConv(c, x, out)
  {
    var n, channels := c.tokens, c.heads * c.dim;
    out := seq(n, t requires 0 <= t < n =>
      seq(channels, ch requires 0 <= ch < channels => Silu(c.o, acc[t][ch])));
    forall t, ch | 0 <= t < n && 0 <= ch < channels ensures out[t][ch] == FlatOut(c, x, t, ch) {
      FourTaps(c, x, t, ch);
    }
  }

  /** reshape(T, H, D)[t, h] */
  method Reshaped<F>(c: Case<F>, x: Conv<F>, out: seq<Vec<F>>, t: nat, h: nat) returns (r: Vec<F>)
    requires c.dim > 0 && t < c.tokens && h < c.heads && IsConv(c, x, out)
    ensures r == ConvVec(c, x, h, t)
  {
    MulLe(h + 1, c.heads, c.dim);
    MulSucc(h, c.dim);
    r := out[t][h * c.dim..h * c.dim + c.dim];
    forall d | 0 <= d < c.dim ensures r[d] == ConvVec(c, x, h, t)[d] {
      ChannelOf(c.dim, h, d);
    }
  }

  /** The body of run_kda's inner loop: one token of one head, on whole vectors. */
  method AdvanceHead<F>(c: Case<F>, before: Matrix<F>, q: Vec<F>, k: Vec<F>, v: Vec<F>, t: nat, h: nat)
    returns (s: Matrix<F>, core: Vec<F>, onorm: Vec<F>)
    requires before == State(c, h, t)
    requires q == ConvVec(c, c.q, h, t) && k == ConvVec(c, c.k, h, t) && v == ConvVec(c, c.v, h, t)
    ensures s == State(c, h, t + 1) && core == Core(c, h, t) && onorm == Onorm(c, h, t)
  {
    var qn := Scaled(c.o, L2Norm(c.o, q));
    var kn := L2Norm(c.o, k);
    var decay := Decay(c.o, c.o.exp(c.aLog(h)), Row(c.dim, d => c.rawG(t, h, d)), Row(c.dim, d => c.dtBias(h, d)));
    s := Decayed(c.o, before, decay);
    var err := Errors(c.o, s, kn, v, Sigmoid(c.o, c.betaRaw(t, h)));
    s := Written(c.o, s, kn, err);
    core := Read(c.o, s, qn);
    var ms := c.o.div(c.o.sum(Times(c.o, core, core)), c.o.width);
    onorm := Gated(c.o, core, ms, Row(c.dim, c.oNormW), OutGate(c, h, t));
  }

  /** Every head's state after t tokens. */
  ghost predicate AtToken<F>(c: Case<F>, s: seq<Matrix<F>>, t: nat) {
    |s| == c.heads && forall h :: 0 <= h < c.heads ==> s[h] == State(c, h, t)
  }

  datatype Run<F> = Run(
    core: array2<Vec<F>>, onorm: array2<Vec<F>>, afterPrefill: seq<Matrix<F>>, afterDecode: seq<Matrix<F>>,
    convQ: seq<Vec<F>>, convK: seq<Vec<F>>, convV: seq<Vec<F>>)

  /** The window after n tokens: the three raw inputs before token n, oldest first. */
  ghost predicate IsWindowAt<F>(c: Case<F>, x: Conv<F>, n: nat, window: seq<Vec<F>>)
    requires c.dim > 0
  {
    && Grid(window, WINDOW, c.heads * c.dim)
    && forall j, ch :: 0 <= j < WINDOW && 0 <= ch < |window[j]| ==> window[j][ch] == Flat(c, x, n + j, ch)
  }

  /** conv_state_at: rows n to n + 3 of the padded input, or as many as there are. */
  method ConvStateAt<F>(c: Case<F>, x: Conv<F>, padded: seq<Vec<F>>, n: nat) returns (window: seq<Vec<F>>)
    requires c.dim > 0 && IsPadded(c, x, padded)
    ensures n <= c.tokens ==> IsWindowAt(c, x, n, window)
  {
    var low, high := Min(n, |padded|), Min(n + WINDOW, |padded|);
    window := padded[low..high];
  }

  ghost predicate WindowsKept<F>(c: Case<F>, n: nat, run: Run<F>) {
    c.dim > 0 && n <= c.tokens ==>
      IsWindowAt(c, c.q, n, run.convQ) && IsWindowAt(c, c.k, n, run.convK) && IsWindowAt(c, c.v, n, run.convV)
  }

  /** Tokens before t, and the first h heads of token t, are in the outputs. */
  ghost predicate Filled<F>(c: Case<F>, core: array2<Vec<F>>, onorm: array2<Vec<F>>, t: int, h: int)
    reads core, onorm
  {
    && core.Length0 == onorm.Length0 == c.tokens && core.Length1 == onorm.Length1 == c.heads
    && forall u, i :: 0 <= u < c.tokens && 0 <= i < c.heads && (u < t || (u == t && i < h)) ==>
         core[u, i] == Core(c, i, u) && onorm[u, i] == Onorm(c, i, u)
  }

  /** Once the prefill tokens are done, the states after them are kept. */
  ghost predicate PrefillKept<F>(c: Case<F>, prefill: nat, t: nat, kept: seq<Matrix<F>>) {
    0 < prefill <= t ==> AtToken(c, kept, prefill)
  }

  /** What run_kda returns for `prefill` tokens out of all. */
  ghost predicate IsRun<F>(c: Case<F>, prefill: nat, run: Run<F>)
    reads run.core, run.onorm
  {
    && Filled(c, run.core, run.onorm, c.tokens, 0)
    && AtToken(c, run.afterDecode, c.tokens)
    && PrefillKept(c, prefill, c.tokens, run.afterPrefill) && WindowsKept(c, prefill, run)
  }

  /** The states held in the array after t tokens. */
  ghost predicate HoldsToken<F>(c: Case<F>, s: array<Matrix<F>>, t: nat)
    reads s
  {
    s.Length == c.heads && forall h :: 0 <= h < c.heads ==> s[h] == State(c, h, t)
  }

  /** run_kda: every head advances one token before any head advances the next. */
  method RunKda<F(0)>(c: Case<F>, prefill: nat) returns (run: Run<F>)
    requires c.dim > 0
    ensures IsRun(c, prefill, run) && fresh(run.core) && fresh(run.onorm)
  {
    var qc, qPad := ConvForward(c, c.q);
    var kc, kPad := ConvForward(c, c.k);
    var vc, vPad := ConvForward(c, c.v);
    var s := InitialStates(c);
    var core, onorm := Outputs(c);
    var afterPrefill := AdvanceTokens(c, prefill, qc, kc, vc, s, core, onorm);
    var afterDecode := Snapshot(c, s, c.tokens);
    var convQ := ConvStateAt(c, c.q, qPad, prefill);
    var convK := ConvStateAt(c, c.k, kPad, prefill);
    var convV := ConvStateAt(c, c.v, vPad, prefill);
    run := Run(core, onorm, afterPrefill, afterDecode, convQ, convK, convV);
  }

  method Outputs<F(0)>(c: Case<F>) returns (core: array2<Vec<F>>, onorm: array2<Vec<F>>)
    ensures Filled(c, core, onorm, 0, 0) && fresh(core) && fresh(onorm) && core != onorm
  {
    core := new Vec<F>[c.tokens, c.heads];
    onorm := new Vec<F>[c.tokens, c.heads];
  }

  /** The loop over the tokens, which keeps the states as they are after the prefill tokens. */
  method AdvanceTokens<F>(c: Case<F>, prefill: nat, qc: seq<Vec<F>>, kc: seq<Vec<F>>, vc: seq<Vec<F>>,
                          s: array<Matrix<F>>, core: array2<Vec<F>>, onorm: array2<Vec<F>>)
    returns (afterPrefill: seq<Matrix<F>>)
    requires c.dim > 0 && core != onorm && IsConv(c, c.q, qc) && IsConv(c, c.k, kc) && IsConv(c, c.v, vc)
    requires HoldsToken(c, s, 0) && Filled(c, core, onorm, 0, 0)
    modifies s, core, onorm
    ensures HoldsToken(c, s, c.tokens) && Filled(c, core, onorm, c.tokens, 0)
    ensures PrefillKept(c, prefill, c.tokens, afterPrefill)
  {
    afterPrefill := [];
    for t := 0 to c.tokens
      invariant HoldsToken(c, s, t) && Filled(c, core, onorm, t, 0)
      invariant PrefillKept(c, prefill, t, afterPrefill)
    {
      AdvanceHeads(c, qc, kc, vc, t, s, core, onorm);
      afterPrefill := KeepPrefill(c, prefill, t, s, afterPrefill);
    }
  }

  /** if t == T_PREFILL - 1: state_after_prefill = copy of S */
  method KeepPrefill<F>(c: Case<F>, prefill: nat, t: nat, s: array<Matrix<F>>, kept: seq<Matrix<F>>)
    returns (keeps: seq<Matrix<F>>)
    requires HoldsToken(c, s, t + 1) && PrefillKept(c, prefill, t, kept)
    ensures PrefillKept(c, prefill, t + 1, keeps)
  {
    keeps := kept;
    if t + 1 == prefill {
      keeps := Snapshot(c, s, t + 1);
    }
  }

  method Snapshot<F>(c: Case<F>, s: array<Matrix<F>>, t: nat) returns (copy: seq<Matrix<F>>)
    requires HoldsToken(c, s, t)
    ensures AtToken(c, copy, t)
  {
    copy := s[..];
  }

  method InitialStates<F>(c: Case<F>) returns (s: array<Matrix<F>>)
    ensures fresh(s) && HoldsToken(c, s, 0)
  {
    s := new Matrix<F>[c.heads];
    for h := 0 to c.heads
      invariant forall i :: 0 <= i < h ==> s[i] == State(c, i, 0)
    {
      s[h] := InitialState(c, h);
    }
  }

  /** One token: the loop over the heads. */
  method AdvanceHeads<F>(c: Case<F>, qc: seq<Vec<F>>, kc: seq<Vec<F>>, vc: seq<Vec<F>>, t: nat,
                         s: array<Matrix<F>>, core: array2<Vec<F>>, onorm: array2<Vec<F>>)
    requires c.dim > 0 && t < c.tokens && core != onorm
    requires IsConv(c, c.q, qc) && IsConv(c, c.k, kc) && IsConv(c, c.v, vc)
    requires HoldsToken(c, s, t) && Filled(c, core, onorm, t, 0)
    modifies s, core, onorm
    ensures HoldsToken(c, s, t + 1) && Filled(c, core, onorm, t + 1, 0)
  {
    for h := 0 to c.heads
      invariant forall i :: 0 <= i < h ==> s[i] == State(c, i, t + 1)
      invariant forall i :: h <= i < c.heads ==> s[i] == State(c, i, t)
      invariant Filled(c, core, onorm, t, h)
    {
      AdvanceOne(c, qc, kc, vc, t, h, s, core, onorm);
    }
  }

  /** One head of one token, in place. */
  method AdvanceOne<F>(c: Case<F>, qc: seq<Vec<F>>, kc: seq<Vec<F>>, vc: seq<Vec<F>>, t: nat, h: nat,
                       s: array<Matrix<F>>, core: array2<Vec<F>>, onorm: array2<Vec<F>>)
    requires c.dim > 0 && t < c.tokens && h < c.heads && core != onorm
    requires IsConv(c, c.q, qc) && IsConv(c, c.k, kc) && IsConv(c, c.v, vc)
    requires core.Length0 == onorm.Length0 == c.tokens && core.Length1 == onorm.Length1 == c.heads
    requires s.Length == c.heads && s[h] == State(c, h, t)
    modifies s, core, onorm
    ensures s[h] == State(c, h, t + 1) && forall i :: 0 <= i < c.heads && i != h ==> s[i] == old(s[i])
    ensures core[t, h] == Core(c, h, t) && onorm[t, h] == Onorm(c, h, t)
    ensures forall u, i :: 0 <= u < c.tokens && 0 <= i < c.heads && (u != t || i != h) ==>
      core[u, i] == old(core[u, i]) && onorm[u, i] == old(onorm[u, i])
  {
    var q := Reshaped(c, c.q, qc, t, h);
    var k := Reshaped(c, c.k, kc, t, h);
    var v := Reshaped(c, c.v, vc, t, h);
    s[h], core[t, h], onorm[t, h] := AdvanceHead(c, s[h], q, k, v, t, h);
  }
}
