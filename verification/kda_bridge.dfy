// The golden run (tools/gen_kda_golden.py) and the reference layer
// (tools/glm53_numpy_ref.py) are the same recurrence. The two scripts write the
// gate, the sigmoid and the mean differently; where these agree, so does
// everything else, token by token and head by head.
module KdaBridge {
  import opened IntMath
  import opened Options
  import opened KdaMath
  import G = KdaGolden
  import opened KdaCarry
  import opened KdaScan

  /** The layer has the case's parameters. */
  ghost predicate SameParameters<F(!new)>(c: G.Case<F>, l: Layer<F>) {
    && l.o == c.o && l.heads == c.heads && l.dim == c.dim && c.dim > 0
    && l.wq == c.q.weight && l.wk == c.k.weight && l.wv == c.v.weight
    && l.dtBias == c.dtBias && l.oNormW == c.oNormW && forall h :: l.aExp(h) == c.o.exp(c.aLog(h))
  }

  /** What the two scripts write differently comes to the same. */
  ghost predicate SameArithmetic<F(!new)>(c: G.Case<F>, l: Layer<F>) {
    && (forall x :: l.sigmoid(x) == Sigmoid(c.o, x))
    && (forall x ::
          c.o.mul(c.o.lowerBound, l.sigmoid(x)) == c.o.div(c.o.lowerBound, c.o.add(c.o.one, c.o.exp(c.o.neg(x)))))
    && (forall v: Vec<F> :: |v| == c.dim ==> c.o.mean(v) == c.o.div(c.o.sum(v), c.o.width))
  }

  // ---- the case as the layer's input ------------------------------------------------

  /** One token's row of all channels. */
  function RowOf<F>(c: G.Case<F>, x: G.Conv<F>, t: int): (r: Vec<F>)
    requires c.dim > 0
    ensures |r| == c.heads * c.dim
  {
    seq(c.heads * c.dim, ch requires 0 <= ch < c.heads * c.dim => x.raw(t, FloorDiv(ch, c.dim), ch % c.dim))
  }

  function WindowOf<F>(c: G.Case<F>, x: G.Conv<F>): (r: seq<Vec<F>>)
    requires c.dim > 0
    ensures IsWindow(r, c.heads * c.dim)
  {
    seq(WINDOW, j requires 0 <= j < WINDOW =>
      seq(c.heads * c.dim, ch requires 0 <= ch < c.heads * c.dim => x.init(ch, j)))
  }

  function ByHeadOf<F>(c: G.Case<F>, f: (int, int) -> F): (r: seq<Vec<F>>)
    ensures |r| == c.heads && Rows(r, c.dim)
  {
    seq(c.heads, h requires 0 <= h < c.heads => G.Row(c.dim, d => f(h, d)))
  }

  function RawOf<F>(c: G.Case<F>, t: int): RawToken<F>
    requires c.dim > 0
  {
    RawToken(RowOf(c, c.q, t), RowOf(c, c.k, t), RowOf(c, c.v, t),
             ByHeadOf(c, (h, d) => c.rawG(t, h, d)), ByHeadOf(c, (h, d) => c.g2Raw(t, h, d)),
             G.Row(c.heads, h => c.betaRaw(t, h)))
  }

  function Raws<F>(c: G.Case<F>, n: nat): (r: seq<RawToken<F>>)
    requires c.dim > 0
    ensures |r| == n && forall t :: 0 <= t < n ==> r[t] == RawOf(c, t)
  {
    seq(n, t requires 0 <= t < n => RawOf(c, t))
  }

  /** What the run starts from, as the carry of an earlier call. */
  function StartOf<F>(c: G.Case<F>): Carry<F>
    requires c.dim > 0
  {
    Carry(WindowOf(c, c.q), WindowOf(c, c.k), WindowOf(c, c.v),
          seq(c.heads, h requires 0 <= h < c.heads => G.InitialState(c, h)))
  }

  lemma Shapes<F(!new)>(c: G.Case<F>, l: Layer<F>, n: nat)
    requires SameParameters(c, l)
    ensures RawShaped(l, Raws(c, n)) && IsCarry(l, StartOf(c))
  {
  }

  // ---- the convolutions ---------------------------------------------------------------

  function RowsOf<F>(c: G.Case<F>, x: G.Conv<F>, n: nat): (r: seq<Vec<F>>)
    requires c.dim > 0
    ensures |r| == n && Rows(r, c.heads * c.dim)
  {
    seq(n, t requires 0 <= t < n => RowOf(c, x, t))
  }

  lemma RowsAre<F>(c: G.Case<F>, n: nat)
    requires c.dim > 0
    ensures Qs(Raws(c, n)) == RowsOf(c, c.q, n) && Ks(Raws(c, n)) == RowsOf(c, c.k, n)
    ensures Vs(Raws(c, n)) == RowsOf(c, c.v, n)
  {
  }

  /** Window and rows together are the padded input. */
  lemma HistoryIsPadded<F>(c: G.Case<F>, x: G.Conv<F>, n: nat, r: nat, ch: nat)
    requires c.dim > 0 && r < n + WINDOW && ch < c.heads * c.dim
    ensures (WindowOf(c, x) + RowsOf(c, x, n))[r][ch] == G.Flat(c, x, r, ch)
  {
  }

  lemma ConvIsConv<F(!new)>(c: G.Case<F>, l: Layer<F>, x: G.Conv<F>, n: nat, t: nat, ch: nat)
    requires SameParameters(c, l) && SameArithmetic(c, l) && t < n && ch < c.heads * c.dim
    ensures Conv(l, x.weight, WindowOf(c, x), RowsOf(c, x, n), c.heads * c.dim)[t][ch] == G.FlatOut(c, x, t, ch)
  {
    var hist, width := WindowOf(c, x) + RowsOf(c, x, n), c.heads * c.dim;
    HistoryIsPadded(c, x, n, t, ch);
    HistoryIsPadded(c, x, n, t + 1, ch);
    HistoryIsPadded(c, x, n, t + 2, ch);
    HistoryIsPadded(c, x, n, t + 3, ch);
    assert Conv(l, x.weight, WindowOf(c, x), RowsOf(c, x, n), width)[t] == ConvRow(l, x.weight, hist, t, width);
    var y := Taps(c.o, hist[t][ch], hist[t + 1][ch], hist[t + 2][ch], hist[t + 3][ch],
                  x.weight(ch, 0), x.weight(ch, 1), x.weight(ch, 2), x.weight(ch, 3));
    assert l.sigmoid(y) == Sigmoid(c.o, y);
  }

  lemma HeadEntry<F>(row: Vec<F>, h: nat, heads: nat, dim: nat, d: nat) returns (ch: nat)
    requires h < heads && |row| == heads * dim && d < dim
    ensures ch < |row| && ch == h * dim + d && HeadRow(row, h, heads, dim)[d] == row[ch]
  {
    HeadFits(h, heads, dim);
    var at := h * dim;
    ch := at + d;
    assert HeadRow(row, h, heads, dim) == row[at..at + dim];
  }

  function ConvRowOf<F>(c: G.Case<F>, l: Layer<F>, x: G.Conv<F>, n: nat, t: nat): (r: Vec<F>)
    requires c.dim > 0 && t < n
    ensures |r| == c.heads * c.dim
  {
    Conv(l, x.weight, WindowOf(c, x), RowsOf(c, x, n), c.heads * c.dim)[t]
  }

  lemma HeadEntryIs<F(!new)>(c: G.Case<F>, l: Layer<F>, x: G.Conv<F>, n: nat, t: nat, h: nat, d: nat)
    requires SameParameters(c, l) && SameArithmetic(c, l) && t < n && h < c.heads && d < c.dim
    ensures HeadRow(ConvRowOf(c, l, x, n, t), h, c.heads, c.dim)[d] == G.ConvVec(c, x, h, t)[d]
  {
    var row := ConvRowOf(c, l, x, n, t);
    var ch := HeadEntry(row, h, c.heads, c.dim, d);
    assert row[ch] == G.ConvVec(c, x, h, t)[d] by {
      ChannelIs(c, l, x, n, t, h, d, ch);
    }
  }

  lemma ChannelIs<F(!new)>(c: G.Case<F>, l: Layer<F>, x: G.Conv<F>, n: nat, t: nat, h: nat, d: nat, ch: nat)
    requires SameParameters(c, l) && SameArithmetic(c, l) && t < n && d < c.dim
    requires ch == h * c.dim + d < c.heads * c.dim
    ensures ConvRowOf(c, l, x, n, t)[ch] == G.ConvVec(c, x, h, t)[d]
  {
    ConvIsConv(c, l, x, n, t, ch);
    assert G.FlatOut(c, x, t, ch) == G.ConvOut(c.o, x, h, d, ch, t) by {
      G.ChannelOf(c.dim, h, d);
    }
    VecEntry(c, x, h, t, d, ch);
  }

  lemma VecEntry<F>(c: G.Case<F>, x: G.Conv<F>, h: nat, t: nat, d: nat, ch: nat)
    requires d < c.dim && ch == h * c.dim + d
    ensures G.ConvVec(c, x, h, t)[d] == G.ConvOut(c.o, x, h, d, ch, t)
  {
  }

  lemma HeadIsVec<F(!new)>(c: G.Case<F>, l: Layer<F>, x: G.Conv<F>, n: nat, t: nat, h: nat)
    requires SameParameters(c, l) && SameArithmetic(c, l) && t < n && h < c.heads
    ensures HeadRow(ConvRowOf(c, l, x, n, t), h, c.heads, c.dim) == G.ConvVec(c, x, h, t)
  {
    var a, b := HeadRow(ConvRowOf(c, l, x, n, t), h, c.heads, c.dim), G.ConvVec(c, x, h, t);
    forall d | 0 <= d < c.dim ensures a[d] == b[d] {
      HeadEntryIs(c, l, x, n, t, h, d);
    }
  }

  /** The windows after n tokens are those the run keeps. */
  lemma WindowsAre<F>(c: G.Case<F>, x: G.Conv<F>, n: nat)
    requires c.dim > 0
    ensures G.IsWindowAt(c, x, n, Window(WindowOf(c, x), RowsOf(c, x, n)))
  {
    var w := Window(WindowOf(c, x), RowsOf(c, x, n));
    forall j, ch | 0 <= j < WINDOW && 0 <= ch < c.heads * c.dim ensures w[j][ch] == G.Flat(c, x, n + j, ch) {
      HistoryIsPadded(c, x, n, n + j, ch);
    }
  }

  /** The scan's token t holds the case's vectors of token t. */
  ghost predicate IsToken<F>(c: G.Case<F>, x: Token<F>, t: nat) {
    && |x.q| == |x.k| == |x.v| == |x.g| == |x.g2| == |x.beta| == c.heads
    && forall h :: 0 <= h < c.heads ==>
         && x.q[h] == G.ConvVec(c, c.q, h, t) && x.k[h] == G.ConvVec(c, c.k, h, t)
         && x.v[h] == G.ConvVec(c, c.v, h, t)
         && x.g[h] == G.Row(c.dim, d => c.rawG(t, h, d)) && x.g2[h] == G.OutGate(c, h, t)
         && x.beta[h] == c.betaRaw(t, h)
  }

  lemma TokensAre<F(!new)>(c: G.Case<F>, l: Layer<F>, n: nat, t: nat)
    requires SameParameters(c, l) && SameArithmetic(c, l) && t < n
    ensures RawShaped(l, Raws(c, n)) && IsCarry(l, StartOf(c))
    ensures IsToken(c, Convolved(l, StartOf(c), Raws(c, n))[t], t)
  {
    Shapes(c, l, n);
    RowsAre(c, n);
    var x := Convolved(l, StartOf(c), Raws(c, n))[t];
    assert x == Token(ByHead(l, ConvRowOf(c, l, c.q, n, t)), ByHead(l, ConvRowOf(c, l, c.k, n, t)),
                      ByHead(l, ConvRowOf(c, l, c.v, n, t)), RawOf(c, t).g, RawOf(c, t).g2, RawOf(c, t).beta);
    forall h | 0 <= h < c.heads
      ensures x.q[h] == G.ConvVec(c, c.q, h, t) && x.k[h] == G.ConvVec(c, c.k, h, t)
      ensures x.v[h] == G.ConvVec(c, c.v, h, t)
    {
      HeadIsVec(c, l, c.q, n, t, h);
      HeadIsVec(c, l, c.k, n, t, h);
      HeadIsVec(c, l, c.v, n, t, h);
    }
    RestOfToken(c, t);
  }

  lemma RestOfToken<F>(c: G.Case<F>, t: nat)
    requires c.dim > 0
    ensures forall h :: 0 <= h < c.heads ==>
      && RawOf(c, t).g[h] == G.Row(c.dim, d => c.rawG(t, h, d)) && RawOf(c, t).g2[h] == G.OutGate(c, h, t)
      && RawOf(c, t).beta[h] == c.betaRaw(t, h)
  {
    forall h | 0 <= h < c.heads
      ensures RawOf(c, t).g[h] == G.Row(c.dim, d => c.rawG(t, h, d)) && RawOf(c, t).g2[h] == G.OutGate(c, h, t)
      ensures RawOf(c, t).beta[h] == c.betaRaw(t, h)
    {
    }
  }

  // ---- one token ------------------------------------------------------------------------

  lemma DecaysAgree<F(!new)>(c: G.Case<F>, l: Layer<F>, h: nat, t: nat)
    requires SameParameters(c, l) && SameArithmetic(c, l)
    ensures DecayOf(l, h, G.Row(c.dim, d => c.rawG(t, h, d))) == G.DecayOf(c, h, t)
  {
    var g := G.Row(c.dim, d => c.rawG(t, h, d));
    forall d | 0 <= d < c.dim ensures DecayOf(l, h, g)[d] == G.DecayOf(c, h, t)[d] {
      var x := c.o.mul(c.o.exp(c.aLog(h)), c.o.add(c.rawG(t, h, d), c.dtBias(h, d)));
      assert c.o.mul(c.o.lowerBound, l.sigmoid(x)) == c.o.div(c.o.lowerBound, c.o.add(c.o.one, c.o.exp(c.o.neg(x))));
    }
  }

  /** The layer holds every head's state after t tokens. */
  ghost predicate Holds<F>(c: G.Case<F>, s: seq<Matrix<F>>, t: nat) {
    |s| == c.heads && forall h :: 0 <= h < c.heads ==> s[h] == G.State(c, h, t)
  }

  lemma TokenAgrees<F(!new)>(c: G.Case<F>, l: Layer<F>, s: seq<Matrix<F>>, x: Token<F>, t: nat)
    requires SameParameters(c, l) && SameArithmetic(c, l) && Shaped(l, x) && IsState(l, s)
    requires Holds(c, s, t) && IsToken(c, x, t)
    ensures Holds(c, TokenStep(l, s, x), t + 1)
    ensures forall h :: 0 <= h < c.heads ==> ReadToken(l, TokenStep(l, s, x), x)[h] == G.Core(c, h, t)
  {
    var next := TokenStep(l, s, x);
    forall h | 0 <= h < c.heads ensures next[h] == G.State(c, h, t + 1) {
      DecaysAgree(c, l, h, t);
      assert l.sigmoid(c.betaRaw(t, h)) == Sigmoid(c.o, c.betaRaw(t, h));
      assert next[h] == HeadStep(l, s[h], x, h);
    }
  }

  // ---- all tokens -------------------------------------------------------------------------

  ghost predicate AreTokens<F>(c: G.Case<F>, xs: seq<Token<F>>) {
    forall t :: 0 <= t < |xs| ==> IsToken(c, xs[t], t)
  }

  lemma {:induction false} StatesAgree<F(!new)>(c: G.Case<F>, l: Layer<F>, s: seq<Matrix<F>>, xs: seq<Token<F>>)
    requires SameParameters(c, l) && SameArithmetic(c, l) && AllShaped(l, xs) && IsState(l, s) && Holds(c, s, 0)
    requires AreTokens(c, xs)
    ensures Holds(c, After(l, s, xs), |xs|)
    decreases |xs|
  {
    if xs != [] {
      var n := |xs| - 1;
      var before := After(l, s, xs[..n]);
      assert Holds(c, before, n) by {
        StatesAgree(c, l, s, xs[..n]);
      }
      assert Holds(c, TokenStep(l, before, xs[n]), n + 1) by {
        TokenAgrees(c, l, before, xs[n], n);
      }
      assert After(l, s, xs) == TokenStep(l, before, xs[n]) by {
        assert xs == xs[..n] + [xs[n]];
        AfterOneMore(l, s, xs[..n], xs[n]);
      }
    }
  }

  lemma {:induction false} AfterOneMore<F>(l: Layer<F>, s: seq<Matrix<F>>, x: seq<Token<F>>, y: Token<F>)
    requires AllShaped(l, x) && Shaped(l, y) && IsState(l, s)
    ensures AllShaped(l, x + [y]) && After(l, s, x + [y]) == TokenStep(l, After(l, s, x), y)
    decreases |x|
  {
    if x == [] {
      assert (x + [y])[1..] == [];
    } else {
      assert (x + [y])[1..] == x[1..] + [y];
      AfterOneMore(l, TokenStep(l, s, x[0]), x[1..], y);
    }
  }

  /** Each token reads the state after itself. */
  lemma {:induction false} ReadsAfter<F>(l: Layer<F>, s: seq<Matrix<F>>, xs: seq<Token<F>>, t: nat)
    requires AllShaped(l, xs) && IsState(l, s) && t < |xs|
    ensures Cores(l, s, xs)[t] == ReadToken(l, After(l, s, xs[..t + 1]), xs[t])
    decreases |xs|
  {
    var next := TokenStep(l, s, xs[0]);
    if t == 0 {
      assert xs[..1][1..] == [];
    } else {
      ReadsAfter(l, next, xs[1..], t - 1);
      assert xs[..t + 1][1..] == xs[1..][..t];
    }
  }

  lemma CoreAgrees<F(!new)>(c: G.Case<F>, l: Layer<F>, s: seq<Matrix<F>>, xs: seq<Token<F>>, t: nat, h: nat)
    requires SameParameters(c, l) && SameArithmetic(c, l) && AllShaped(l, xs) && IsState(l, s) && Holds(c, s, 0)
    requires AreTokens(c, xs) && t < |xs| && h < c.heads
    ensures Cores(l, s, xs)[t][h] == G.Core(c, h, t)
  {
    ReadsAfter(l, s, xs, t);
    StatesAgree(c, l, s, xs[..t + 1]);
  }

  lemma CaseTokens<F(!new)>(c: G.Case<F>, l: Layer<F>, n: nat)
    requires SameParameters(c, l) && SameArithmetic(c, l)
    ensures RawShaped(l, Raws(c, n)) && IsCarry(l, StartOf(c))
    ensures AreTokens(c, Convolved(l, StartOf(c), Raws(c, n))) && Holds(c, StartOf(c).s, 0)
  {
    Shapes(c, l, n);
    var xs := Convolved(l, StartOf(c), Raws(c, n));
    forall t | 0 <= t < n ensures IsToken(c, xs[t], t) {
      TokensAre(c, l, n, t);
    }
  }

  /** The reference layer on the case's inputs, from its initial windows and states, ends in every head's state. */
  lemma LayerEndsInState<F(!new)>(c: G.Case<F>, l: Layer<F>, n: nat)
    requires SameParameters(c, l) && SameArithmetic(c, l)
    ensures RawShaped(l, Raws(c, n)) && IsCarry(l, StartOf(c))
    ensures Holds(c, Next(l, StartOf(c), Raws(c, n)).s, n)
  {
    CaseTokens(c, l, n);
    StatesAgree(c, l, StartOf(c).s, Convolved(l, StartOf(c), Raws(c, n)));
  }

  /** And gives every head's core and normed output at every token. */
  lemma LayerIsRun<F(!new)>(c: G.Case<F>, l: Layer<F>, n: nat, t: nat, h: nat)
    requires SameParameters(c, l) && SameArithmetic(c, l) && t < n && h < c.heads
    ensures RawShaped(l, Raws(c, n)) && IsCarry(l, StartOf(c))
    ensures var xs := Convolved(l, StartOf(c), Raws(c, n));
      Cores(l, StartOf(c).s, xs)[t][h] == G.Core(c, h, t) && NormAt(l, StartOf(c).s, xs, t, h) == G.Onorm(c, h, t)
  {
    CaseTokens(c, l, n);
    var xs := Convolved(l, StartOf(c), Raws(c, n));
    CoreAgrees(c, l, StartOf(c).s, xs, t, h);
    assert IsToken(c, xs[t], t);
    NormsAgree(c, l, h, t);
  }

  /** One head's row of one token of the layer's output. */
  function NormAt<F>(l: Layer<F>, s: seq<Matrix<F>>, xs: seq<Token<F>>, t: nat, h: nat): Vec<F>
    requires AllShaped(l, xs) && IsState(l, s) && t < |xs| && h < l.heads
  {
    NormHead(l, Cores(l, s, xs)[t][h], xs[t].g2[h])
  }

  lemma NormAtIsOutput<F>(l: Layer<F>, c: Carry<F>, xs: seq<RawToken<F>>, t: nat, h: nat)
    requires RawShaped(l, xs) && IsCarry(l, c) && t < |xs| && h < l.heads
    ensures |Outputs(l, c, xs)| == |xs| && |Outputs(l, c, xs)[t]| == l.heads
    ensures Outputs(l, c, xs)[t][h] == NormAt(l, c.s, Convolved(l, c, xs), t, h)
  {
  }

  lemma NormsAgree<F(!new)>(c: G.Case<F>, l: Layer<F>, h: nat, t: nat)
    requires SameParameters(c, l) && SameArithmetic(c, l)
    ensures NormHead(l, G.Core(c, h, t), G.OutGate(c, h, t)) == G.Onorm(c, h, t)
  {
    var core := G.Core(c, h, t);
    assert c.o.mean(Times(c.o, core, core)) == c.o.div(c.o.sum(Times(c.o, core, core)), c.o.width);
    var a, b := NormHead(l, core, G.OutGate(c, h, t)), G.Onorm(c, h, t);
    forall v | 0 <= v < c.dim ensures a[v] == b[v] {
      assert l.sigmoid(c.g2Raw(t, h, v)) == Sigmoid(c.o, c.g2Raw(t, h, v));
    }
  }
}
