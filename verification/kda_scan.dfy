// The recurrent scan of Kimi Delta Attention in carry-state form, and the layer
// that feeds it from the convolutions (tools/glm53_numpy_ref.py).
module KdaScan {
  import opened Options
  import opened KdaMath
  import opened KdaCarry

  /** One token after convolution: per head the q, k, v, gate inputs g and g2, and beta. */
  datatype Token<F> = Token(
    q: seq<Vec<F>>, k: seq<Vec<F>>, v: seq<Vec<F>>, g: seq<Vec<F>>, g2: seq<Vec<F>>, beta: Vec<F>)

  predicate Heads<F>(l: Layer<F>, x: seq<Vec<F>>) {
    |x| == l.heads && Rows(x, l.dim)
  }

  predicate Shaped<F>(l: Layer<F>, x: Token<F>) {
    Heads(l, x.q) && Heads(l, x.k) && Heads(l, x.v) && Heads(l, x.g) && Heads(l, x.g2) && |x.beta| == l.heads
  }

  predicate AllShaped<F>(l: Layer<F>, xs: seq<Token<F>>) {
    forall i :: 0 <= i < |xs| ==> Shaped(l, xs[i])
  }

  predicate IsState<F>(l: Layer<F>, s: seq<Matrix<F>>) {
    |s| == l.heads && forall h :: 0 <= h < l.heads ==> Square(s[h], l.dim)
  }

  // ---- the scan as a function -----------------------------------------------------

  /** exp(LOWER_BOUND * sigmoid(a * (g + bias))) */
  function DecayOf<F>(l: Layer<F>, h: nat, g: Vec<F>): (r: Vec<F>)
    ensures |r| == |g|
  {
    seq(|g|, c requires 0 <= c < |g| =>
      l.o.exp(l.o.mul(l.o.lowerBound, l.sigmoid(l.o.mul(l.aExp(h), l.o.add(g[c], l.dtBias(h, c)))))))
  }

  function HeadStep<F>(l: Layer<F>, s: Matrix<F>, x: Token<F>, h: nat): (r: Matrix<F>)
    requires Shaped(l, x) && h < l.heads && Square(s, l.dim)
    ensures Square(r, l.dim)
  {
    Step(l.o, s, L2Norm(l.o, x.k[h]), x.v[h], DecayOf(l, h, x.g[h]), l.sigmoid(x.beta[h]))
  }

  function TokenStep<F>(l: Layer<F>, s: seq<Matrix<F>>, x: Token<F>): (r: seq<Matrix<F>>)
    requires Shaped(l, x) && IsState(l, s)
    ensures IsState(l, r)
  {
    seq(l.heads, h requires 0 <= h < l.heads => HeadStep(l, s[h], x, h))
  }

  /** The state after the tokens xs. */
  function After<F>(l: Layer<F>, s: seq<Matrix<F>>, xs: seq<Token<F>>): (r: seq<Matrix<F>>)
    requires AllShaped(l, xs) && IsState(l, s)
    ensures IsState(l, r)
    decreases |xs|
  {
    if xs == [] then s else After(l, TokenStep(l, s, xs[0]), xs[1..])
  }

  function ReadToken<F>(l: Layer<F>, s: seq<Matrix<F>>, x: Token<F>): (r: seq<Vec<F>>)
    requires Shaped(l, x) && IsState(l, s)
    ensures Heads(l, r)
  {
    seq(l.heads, h requires 0 <= h < l.heads => Read(l.o, s[h], Scaled(l.o, L2Norm(l.o, x.q[h]))))
  }

  /** What each token reads after its own write. */
  function Cores<F>(l: Layer<F>, s: seq<Matrix<F>>, xs: seq<Token<F>>): (r: seq<seq<Vec<F>>>)
    requires AllShaped(l, xs) && IsState(l, s)
    ensures |r| == |xs| && forall t :: 0 <= t < |xs| ==> Heads(l, r[t])
    decreases |xs|
  {
    if xs == [] then []
    else
      var next := TokenStep(l, s, xs[0]);
      [ReadToken(l, next, xs[0])] + Cores(l, next, xs[1..])
  }

  /** (core / sqrt(mean(core * core) + eps)) * w * sigmoid(g2) */
  function NormHead<F>(l: Layer<F>, core: Vec<F>, g2: Vec<F>): (r: Vec<F>)
    requires |core| == |g2|
    ensures |r| == |core|
  {
    var denom := l.o.sqrt(l.o.add(l.o.mean(Times(l.o, core, core)), l.o.rmsEps));
    seq(|core|, v requires 0 <= v < |core| =>
      l.o.mul(l.o.mul(l.o.div(core[v], denom), l.oNormW(v)), l.sigmoid(g2[v])))
  }

  function NormToken<F>(l: Layer<F>, core: seq<Vec<F>>, x: Token<F>): seq<Vec<F>>
    requires Shaped(l, x) && Heads(l, core)
  {
    seq(l.heads, h requires 0 <= h < l.heads => NormHead(l, core[h], x.g2[h]))
  }

  function Onorms<F>(l: Layer<F>, s: seq<Matrix<F>>, xs: seq<Token<F>>): (r: seq<seq<Vec<F>>>)
    requires AllShaped(l, xs) && IsState(l, s)
    ensures |r| == |xs|
  {
    var cores := Cores(l, s, xs);
    seq(|xs|, t requires 0 <= t < |xs| => NormToken(l, cores[t], xs[t]))
  }

  /** Scanning x then y from the returned state is scanning x + y. */
  lemma {:induction false} ScanSplit<F>(l: Layer<F>, s: seq<Matrix<F>>, x: seq<Token<F>>, y: seq<Token<F>>)
    requires AllShaped(l, x) && AllShaped(l, y) && IsState(l, s)
    ensures AllShaped(l, x + y)
    ensures After(l, s, x + y) == After(l, After(l, s, x), y)
    ensures Cores(l, s, x + y) == Cores(l, s, x) + Cores(l, After(l, s, x), y)
    decreases |x|
  {
    if x == [] {
      assert x + y == y;
    } else {
      var next := TokenStep(l, s, x[0]);
      assert (x + y)[1..] == x[1..] + y && (x + y)[0] == x[0];
      ScanSplit(l, next, x[1..], y);
      assert Cores(l, s, x + y) == [ReadToken(l, next, x[0])] + (Cores(l, next, x[1..]) + Cores(l, After(l, s, x), y));
    }
  }

  lemma OnormSplit<F>(l: Layer<F>, s: seq<Matrix<F>>, x: seq<Token<F>>, y: seq<Token<F>>)
    requires AllShaped(l, x) && AllShaped(l, y) && IsState(l, s)
    ensures AllShaped(l, x + y)
    ensures Onorms(l, s, x + y) == Onorms(l, s, x) + Onorms(l, After(l, s, x), y)
  {
    ScanSplit(l, s, x, y);
    var whole, parts := Onorms(l, s, x + y), Onorms(l, s, x) + Onorms(l, After(l, s, x), y);
    forall t | 0 <= t < |x + y| ensures whole[t] == parts[t] {
      if t < |x| {
        assert (x + y)[t] == x[t];
      } else {
        assert (x + y)[t] == y[t - |x|];
      }
    }
  }

  // ---- kda_scan ---------------------------------------------------------------------

  function InitialState<F>(l: Layer<F>, s0: Option<seq<Matrix<F>>>): (r: seq<Matrix<F>>)
    requires s0.Some? ==> IsState(l, s0.value)
    ensures IsState(l, r) && (s0.Some? ==> r == s0.value)
    ensures s0.None? ==>
      forall h, v, k :: 0 <= h < l.heads && 0 <= v < l.dim && 0 <= k < l.dim ==> r[h][v][k] == l.o.zero
  {
    match s0
    case Some(s) => s
    case None => seq(l.heads, _ => seq(l.dim, _ => seq(l.dim, _ => l.o.zero)))
  }

  /** What the scan works out for all tokens before its loop. */
  datatype Ready<F> = Ready(decay: seq<Vec<F>>, qn: seq<Vec<F>>, kn: seq<Vec<F>>, beta: Vec<F>)

  function Prepare<F>(l: Layer<F>, x: Token<F>): (r: Ready<F>)
    requires Shaped(l, x)
    ensures Heads(l, r.decay) && Heads(l, r.qn) && Heads(l, r.kn) && |r.beta| == l.heads
  {
    Ready(seq(l.heads, h requires 0 <= h < l.heads => DecayOf(l, h, x.g[h])),
          seq(l.heads, h requires 0 <= h < l.heads => Scaled(l.o, L2Norm(l.o, x.q[h]))),
          seq(l.heads, h requires 0 <= h < l.heads => L2Norm(l.o, x.k[h])),
          seq(l.heads, h requires 0 <= h < l.heads => l.sigmoid(x.beta[h])))
  }

  /** kda_scan: prepare all tokens, then the time loop, then the norm of all tokens. */
  method Scan<F>(l: Layer<F>, xs: seq<Token<F>>, s0: Option<seq<Matrix<F>>>)
    returns (core: seq<seq<Vec<F>>>, onorm: seq<seq<Vec<F>>>, s: seq<Matrix<F>>)
    requires AllShaped(l, xs) && (s0.Some? ==> IsState(l, s0.value))
    ensures core == Cores(l, InitialState(l, s0), xs) && onorm == Onorms(l, InitialState(l, s0), xs)
    ensures s == After(l, InitialState(l, s0), xs)
  {
    var n := |xs|;
    var ready := seq(n, t requires 0 <= t < n => Prepare(l, xs[t]));
    s := InitialState(l, s0);
    core := [];
    for t := 0 to n
      invariant AllShaped(l, xs[..t]) && s == After(l, InitialState(l, s0), xs[..t])
      invariant core == Cores(l, InitialState(l, s0), xs[..t])
    {
      ScanSplit(l, InitialState(l, s0), xs[..t], [xs[t]]);
      assert xs[..t + 1] == xs[..t] + [xs[t]];
      var row;
      s, row := ScanToken(l, s, xs[t], ready[t]);
      core := core + [row];
    }
    assert xs[..n] == xs;
    onorm := seq(n, t requires 0 <= t < n => NormToken(l, core[t], xs[t]));
  }

  /** The body of the time loop, all heads at once: decay, delta error, write, read. */
  method ScanToken<F>(l: Layer<F>, before: seq<Matrix<F>>, x: Token<F>, ready: Ready<F>)
    returns (s: seq<Matrix<F>>, row: seq<Vec<F>>)
    requires Shaped(l, x) && IsState(l, before) && ready == Prepare(l, x)
    ensures s == After(l, before, [x]) && [row] == Cores(l, before, [x])
  {
    var n := l.heads;
    var low := seq(n, h requires 0 <= h < n => Decayed(l.o, before[h], ready.decay[h]));
    var err := seq(n, h requires 0 <= h < n => Errors(l.o, low[h], ready.kn[h], x.v[h], ready.beta[h]));
    s := seq(n, h requires 0 <= h < n => Written(l.o, low[h], ready.kn[h], err[h]));
    row := seq(n, h requires 0 <= h < n => Read(l.o, s[h], ready.qn[h]));
    assert s == TokenStep(l, before, x);
    assert row == ReadToken(l, s, x);
  }

  // ---- convolutions and scan together -------------------------------------------------

  /** One token before convolution; q, k and v are rows of all heads' channels. */
  datatype RawToken<F> = RawToken(q: Vec<F>, k: Vec<F>, v: Vec<F>, g: seq<Vec<F>>, g2: seq<Vec<F>>, beta: Vec<F>)

  /** What one call hands to the next: three conv windows and the recurrent state. */
  datatype Carry<F> = Carry(q: seq<Vec<F>>, k: seq<Vec<F>>, v: seq<Vec<F>>, s: seq<Matrix<F>>)

  function Width<F>(l: Layer<F>): nat {
    l.heads * l.dim
  }

  predicate RawShaped<F>(l: Layer<F>, xs: seq<RawToken<F>>) {
    forall i :: 0 <= i < |xs| ==>
      && |xs[i].q| == |xs[i].k| == |xs[i].v| == Width(l)
      && Heads(l, xs[i].g) && Heads(l, xs[i].g2) && |xs[i].beta| == l.heads
  }

  predicate IsCarry<F>(l: Layer<F>, c: Carry<F>) {
    IsWindow(c.q, Width(l)) && IsWindow(c.k, Width(l)) && IsWindow(c.v, Width(l)) && IsState(l, c.s)
  }

  function Qs<F>(xs: seq<RawToken<F>>): (r: seq<Vec<F>>)
    ensures |r| == |xs|
  {
    seq(|xs|, i requires 0 <= i < |xs| => xs[i].q)
  }

  function Ks<F>(xs: seq<RawToken<F>>): (r: seq<Vec<F>>)
    ensures |r| == |xs|
  {
    seq(|xs|, i requires 0 <= i < |xs| => xs[i].k)
  }

  function Vs<F>(xs: seq<RawToken<F>>): (r: seq<Vec<F>>)
    ensures |r| == |xs|
  {
    seq(|xs|, i requires 0 <= i < |xs| => xs[i].v)
  }

  lemma HeadFits(h: nat, heads: nat, dim: nat)
    requires h < heads
    ensures 0 <= h * dim <= h * dim + dim <= heads * dim
  {
    assert (h + 1) * dim == h * dim + dim && (h + 1) * dim <= heads * dim;
  }

  function HeadRow<F>(row: Vec<F>, h: nat, heads: nat, dim: nat): (r: Vec<F>)
    requires h < heads && |row| == heads * dim
    ensures |r| == dim
  {
    HeadFits(h, heads, dim);
    var at := h * dim;
    row[at..at + dim]
  }

  /** row.reshape(H, D) */
  function ByHead<F>(l: Layer<F>, row: Vec<F>): (r: seq<Vec<F>>)
    requires |row| == Width(l)
    ensures Heads(l, r)
  {
    seq(l.heads, h requires 0 <= h < l.heads => HeadRow(row, h, l.heads, l.dim))
  }

  /** The scan's tokens out of convolved rows. */
  function TokensOf<F>(l: Layer<F>, q: seq<Vec<F>>, k: seq<Vec<F>>, v: seq<Vec<F>>, xs: seq<RawToken<F>>)
    : (r: seq<Token<F>>)
    requires RawShaped(l, xs) && |q| == |k| == |v| == |xs|
    requires Rows(q, Width(l)) && Rows(k, Width(l)) && Rows(v, Width(l))
    ensures |r| == |xs| && AllShaped(l, r)
  {
    seq(|xs|, t requires 0 <= t < |xs| =>
      Token(ByHead(l, q[t]), ByHead(l, k[t]), ByHead(l, v[t]), xs[t].g, xs[t].g2, xs[t].beta))
  }

  lemma TokensConcat<F>(l: Layer<F>, q: seq<Vec<F>>, k: seq<Vec<F>>, v: seq<Vec<F>>, x: seq<RawToken<F>>,
                        q': seq<Vec<F>>, k': seq<Vec<F>>, v': seq<Vec<F>>, y: seq<RawToken<F>>)
    requires RawShaped(l, x) && |q| == |k| == |v| == |x| && RawShaped(l, y) && |q'| == |k'| == |v'| == |y|
    requires Rows(q, Width(l)) && Rows(k, Width(l)) && Rows(v, Width(l))
    requires Rows(q', Width(l)) && Rows(k', Width(l)) && Rows(v', Width(l))
    ensures RawShaped(l, x + y)
    ensures TokensOf(l, q + q', k + k', v + v', x + y) == TokensOf(l, q, k, v, x) + TokensOf(l, q', k', v', y)
  {
    var whole := TokensOf(l, q + q', k + k', v + v', x + y);
    var parts := TokensOf(l, q, k, v, x) + TokensOf(l, q', k', v', y);
    forall t | 0 <= t < |x + y| ensures whole[t] == parts[t] {
      if t < |x| {
        assert (x + y)[t] == x[t];
      } else {
        assert (x + y)[t] == y[t - |x|];
      }
    }
  }

  lemma RowsOfRaw<F>(l: Layer<F>, xs: seq<RawToken<F>>)
    requires RawShaped(l, xs)
    ensures Rows(Qs(xs), Width(l)) && Rows(Ks(xs), Width(l)) && Rows(Vs(xs), Width(l))
  {
  }

  /** The tokens the scan sees: the raw ones, with q, k and v convolved. */
  function Convolved<F>(l: Layer<F>, c: Carry<F>, xs: seq<RawToken<F>>): (r: seq<Token<F>>)
    requires RawShaped(l, xs) && IsCarry(l, c)
    ensures |r| == |xs| && AllShaped(l, r)
  {
    RowsOfRaw(l, xs);
    TokensOf(l, Conv(l, l.wq, c.q, Qs(xs), Width(l)), Conv(l, l.wk, c.k, Ks(xs), Width(l)),
             Conv(l, l.wv, c.v, Vs(xs), Width(l)), xs)
  }

  /** The carry after xs. */
  function Next<F>(l: Layer<F>, c: Carry<F>, xs: seq<RawToken<F>>): (r: Carry<F>)
    requires RawShaped(l, xs) && IsCarry(l, c)
    ensures IsCarry(l, r)
  {
    RowsOfRaw(l, xs);
    WindowWidth(c.q, Qs(xs), Width(l));
    WindowWidth(c.k, Ks(xs), Width(l));
    WindowWidth(c.v, Vs(xs), Width(l));
    Carry(Window(c.q, Qs(xs)), Window(c.k, Ks(xs)), Window(c.v, Vs(xs)), After(l, c.s, Convolved(l, c, xs)))
  }

  function Outputs<F>(l: Layer<F>, c: Carry<F>, xs: seq<RawToken<F>>): seq<seq<Vec<F>>>
    requires RawShaped(l, xs) && IsCarry(l, c)
  {
    Onorms(l, c.s, Convolved(l, c, xs))
  }

  /** The three convolutions and the scan, each handing on its state. */
  method Forward<F>(l: Layer<F>, c: Carry<F>, xs: seq<RawToken<F>>) returns (onorm: seq<seq<Vec<F>>>, next: Carry<F>)
    requires RawShaped(l, xs) && IsCarry(l, c)
    ensures onorm == Outputs(l, c, xs) && next == Next(l, c, xs)
  {
    RowsOfRaw(l, xs);
    var q, cq := ConvSilu(l, Qs(xs), l.wq, Width(l), Some(c.q));
    var k, ck := ConvSilu(l, Ks(xs), l.wk, Width(l), Some(c.k));
    var v, cv := ConvSilu(l, Vs(xs), l.wv, Width(l), Some(c.v));
    var core, on, s := Scan(l, TokensOf(l, q, k, v, xs), Some(c.s));
    onorm, next := on, Carry(cq, ck, cv, s);
  }

  lemma RawConcat<F>(l: Layer<F>, x: seq<RawToken<F>>, y: seq<RawToken<F>>)
    requires RawShaped(l, x) && RawShaped(l, y)
    ensures RawShaped(l, x + y)
    ensures Qs(x + y) == Qs(x) + Qs(y) && Ks(x + y) == Ks(x) + Ks(y) && Vs(x + y) == Vs(x) + Vs(y)
  {
  }

  lemma ConvolvedSplit<F>(l: Layer<F>, c: Carry<F>, d: Carry<F>, x: seq<RawToken<F>>, y: seq<RawToken<F>>)
    requires RawShaped(l, x) && RawShaped(l, y) && IsCarry(l, c) && d == Next(l, c, x)
    ensures RawShaped(l, x + y)
    ensures Convolved(l, c, x + y) == Convolved(l, c, x) + Convolved(l, d, y)
  {
    var n := Width(l);
    RawConcat(l, x, y);
    RowsOfRaw(l, x);
    RowsOfRaw(l, y);
    ConvSplit(l, l.wq, c.q, Qs(x), Qs(y), n);
    ConvSplit(l, l.wk, c.k, Ks(x), Ks(y), n);
    ConvSplit(l, l.wv, c.v, Vs(x), Vs(y), n);
    TokensConcat(l, Conv(l, l.wq, c.q, Qs(x), n), Conv(l, l.wk, c.k, Ks(x), n), Conv(l, l.wv, c.v, Vs(x), n), x,
                 Conv(l, l.wq, d.q, Qs(y), n), Conv(l, l.wk, d.k, Ks(y), n), Conv(l, l.wv, d.v, Vs(y), n), y);
  }

  lemma NextSplit<F>(l: Layer<F>, c: Carry<F>, d: Carry<F>, x: seq<RawToken<F>>, y: seq<RawToken<F>>)
    requires RawShaped(l, x) && RawShaped(l, y) && IsCarry(l, c) && d == Next(l, c, x)
    ensures RawShaped(l, x + y) && Next(l, c, x + y) == Next(l, d, y)
  {
    RawConcat(l, x, y);
    ConvolvedSplit(l, c, d, x, y);
    ScanSplit(l, c.s, Convolved(l, c, x), Convolved(l, d, y));
    WindowSplit(c.q, Qs(x), Qs(y));
    WindowSplit(c.k, Ks(x), Ks(y));
    WindowSplit(c.v, Vs(x), Vs(y));
  }

  lemma OutputsSplit<F>(l: Layer<F>, c: Carry<F>, d: Carry<F>, x: seq<RawToken<F>>, y: seq<RawToken<F>>)
    requires RawShaped(l, x) && RawShaped(l, y) && IsCarry(l, c) && d == Next(l, c, x)
    ensures RawShaped(l, x + y) && Outputs(l, c, x + y) == Outputs(l, c, x) + Outputs(l, d, y)
  {
    RawConcat(l, x, y);
    ConvolvedSplit(l, c, d, x, y);
    OnormSplit(l, c.s, Convolved(l, c, x), Convolved(l, d, y));
  }

  /**
   * The carry split of a whole layer, for stretches of any length: x + y from a
   * carry gives the outputs of x, then those of y from the carry x leaves, and
   * the same final carry.
   */
  lemma CarrySplit<F>(l: Layer<F>, c: Carry<F>, x: seq<RawToken<F>>, y: seq<RawToken<F>>)
    requires RawShaped(l, x) && RawShaped(l, y) && IsCarry(l, c)
    ensures RawShaped(l, x + y)
    ensures Outputs(l, c, x + y) == Outputs(l, c, x) + Outputs(l, Next(l, c, x), y)
    ensures Next(l, c, x + y) == Next(l, Next(l, c, x), y)
  {
    RawConcat(l, x, y);
    OutputsSplit(l, c, Next(l, c, x), x, y);
    NextSplit(l, c, Next(l, c, x), x, y);
  }
}
