// The carry-state form of Kimi Delta Attention (tools/glm53_numpy_ref.py):
// convolution and scan take the state an earlier call returned. Running a
// stretch of tokens at once or in two pieces gives the same outputs and state.
module KdaCarry {
  import opened Options
  import opened KdaMath

  /** A layer: its arithmetic (sigmoid goes through a wider type here), its shape and its parameters. */
  datatype Layer<!F> = Layer(
    o: Ops<F>, sigmoid: F -> F, heads: nat, dim: nat,
    wq: (int, int) -> F, wk: (int, int) -> F, wv: (int, int) -> F,
    aExp: int -> F, dtBias: (int, int) -> F, oNormW: int -> F)

  predicate Rows<F>(x: seq<Vec<F>>, width: nat) {
    forall i :: 0 <= i < |x| ==> |x[i]| == width
  }

  // ---- convolution ------------------------------------------------------------

  predicate IsWindow<F>(st: seq<Vec<F>>, width: nat) {
    |st| == WINDOW && Rows(st, width)
  }

  /** One channel of one token: four taps over the history, then SiLU. */
  function ConvAt<F>(l: Layer<F>, w: (int, int) -> F, a: Vec<F>, b: Vec<F>, c: Vec<F>, d: Vec<F>, ch: nat): F
    requires ch < |a| && ch < |b| && ch < |c| && ch < |d|
  {
    var y := Taps(l.o, a[ch], b[ch], c[ch], d[ch], w(ch, 0), w(ch, 1), w(ch, 2), w(ch, 3));
    l.o.mul(y, l.sigmoid(y))
  }

  function ConvRow<F>(l: Layer<F>, w: (int, int) -> F, hist: seq<Vec<F>>, t: nat, width: nat): (r: Vec<F>)
    requires t + WINDOW < |hist| && Rows(hist, width)
    ensures |r| == width
  {
    seq(width, ch requires 0 <= ch < width => ConvAt(l, w, hist[t], hist[t + 1], hist[t + 2], hist[t + 3], ch))
  }

  function Conv<F>(l: Layer<F>, w: (int, int) -> F, st: seq<Vec<F>>, x: seq<Vec<F>>, width: nat): (r: seq<Vec<F>>)
    requires IsWindow(st, width) && Rows(x, width)
    ensures |r| == |x| && Rows(r, width)
  {
    seq(|x|, t requires 0 <= t < |x| => ConvRow(l, w, st + x, t, width))
  }

  /** hist[T:]: the last three raw inputs, oldest first. */
  function Window<F>(st: seq<Vec<F>>, x: seq<Vec<F>>): (r: seq<Vec<F>>)
    requires |st| == WINDOW
    ensures |r| == WINDOW
  {
    (st + x)[|x|..]
  }

  lemma WindowWidth<F>(st: seq<Vec<F>>, x: seq<Vec<F>>, width: nat)
    requires IsWindow(st, width) && Rows(x, width)
    ensures IsWindow(Window(st, x), width)
  {
  }

  /** The window of a continued input, even when either piece is shorter than the window. */
  lemma WindowSplit<F>(st: seq<Vec<F>>, x: seq<Vec<F>>, y: seq<Vec<F>>)
    requires |st| == WINDOW
    ensures Window(Window(st, x), y) == Window(st, x + y)
    ensures Window(st, x) + y == (st + (x + y))[|x|..]
  {
  }

  /** Convolving x then y from the returned window is convolving x + y. */
  lemma ConvSplit<F>(l: Layer<F>, w: (int, int) -> F, st: seq<Vec<F>>, x: seq<Vec<F>>, y: seq<Vec<F>>, width: nat)
    requires IsWindow(st, width) && Rows(x, width) && Rows(y, width)
    ensures IsWindow(Window(st, x), width)
    ensures Conv(l, w, st, x + y, width) == Conv(l, w, st, x, width) + Conv(l, w, Window(st, x), y, width)
  {
    WindowWidth(st, x, width);
    WindowSplit(st, x, y);
    var whole, first, second :=
      Conv(l, w, st, x + y, width), Conv(l, w, st, x, width), Conv(l, w, Window(st, x), y, width);
    forall t | 0 <= t < |x| ensures whole[t] == first[t] {
      SameHistory(l, w, st + (x + y), t, st + x, t, width);
    }
    forall t | 0 <= t < |y| ensures whole[|x| + t] == second[t] {
      SameHistory(l, w, st + (x + y), |x| + t, Window(st, x) + y, t, width);
    }
    assert whole == first + second;
  }

  /** A row depends on four rows of the history only. */
  lemma SameHistory<F>(l: Layer<F>, w: (int, int) -> F, a: seq<Vec<F>>, i: nat, b: seq<Vec<F>>, j: nat, width: nat)
    requires i + WINDOW < |a| && j + WINDOW < |b| && Rows(a, width) && Rows(b, width)
    requires a[i..i + 4] == b[j..j + 4]
    ensures ConvRow(l, w, a, i, width) == ConvRow(l, w, b, j, width)
  {
    var p, q := a[i..i + 4], b[j..j + 4];
    assert p[0] == a[i] && p[1] == a[i + 1] && p[2] == a[i + 2] && p[3] == a[i + 3];
    assert q[0] == b[j] && q[1] == b[j + 1] && q[2] == b[j + 2] && q[3] == b[j + 3];
  }

  /**
   * conv_state_at(padded, n): three rows of the padded input are the window
   * after n tokens, and convolving the rest from it gives the rest of the run.
   */
  lemma ConvStateAt<F>(l: Layer<F>, w: (int, int) -> F, st: seq<Vec<F>>, x: seq<Vec<F>>, n: nat, width: nat)
    requires IsWindow(st, width) && Rows(x, width) && n <= |x|
    ensures (st + x)[n..n + WINDOW] == Window(st, x[..n])
    ensures IsWindow((st + x)[n..n + WINDOW], width)
    ensures Conv(l, w, st, x, width)[n..] == Conv(l, w, (st + x)[n..n + WINDOW], x[n..], width)
  {
    assert x == x[..n] + x[n..];
    ConvSplit(l, w, st, x[..n], x[n..], width);
    assert (st + x)[n..n + WINDOW] == Window(st, x[..n]);
  }

  /** The first j taps of one output. */
  function FirstTaps<F>(l: Layer<F>, w: (int, int) -> F, hist: seq<Vec<F>>, t: nat, ch: nat, width: nat, j: nat): F
    requires j <= 4 && t + j <= |hist| && Rows(hist, width) && ch < width
  {
    if j == 0 then l.o.zero
    else l.o.add(FirstTaps(l, w, hist, t, ch, width, j - 1), l.o.mul(hist[t + j - 1][ch], w(ch, j - 1)))
  }

  lemma NextTap<F>(l: Layer<F>, w: (int, int) -> F, hist: seq<Vec<F>>, t: nat, ch: nat, width: nat, j: nat)
    requires j < 4 && t + j < |hist| && Rows(hist, width) && ch < width
    ensures FirstTaps(l, w, hist, t, ch, width, j + 1)
      == l.o.add(FirstTaps(l, w, hist, t, ch, width, j), l.o.mul(hist[t + j][ch], w(ch, j)))
  {
  }

  lemma FourTaps<F>(l: Layer<F>, w: (int, int) -> F, hist: seq<Vec<F>>, t: nat, ch: nat, width: nat)
    requires t + 4 <= |hist| && Rows(hist, width) && ch < width
    ensures FirstTaps(l, w, hist, t, ch, width, 4)
      == Taps(l.o, hist[t][ch], hist[t + 1][ch], hist[t + 2][ch], hist[t + 3][ch],
              w(ch, 0), w(ch, 1), w(ch, 2), w(ch, 3))
  {
    NextTap(l, w, hist, t, ch, width, 0);
    NextTap(l, w, hist, t, ch, width, 1);
    NextTap(l, w, hist, t, ch, width, 2);
    NextTap(l, w, hist, t, ch, width, 3);
  }

  ghost predicate HasTaps<F>(l: Layer<F>, w: (int, int) -> F, hist: seq<Vec<F>>, width: nat, acc: seq<Vec<F>>, j: nat)
    requires j <= 4 && Rows(hist, width) && |hist| == |acc| + WINDOW
  {
    && Rows(acc, width)
    && forall t, ch :: 0 <= t < |acc| && 0 <= ch < |acc[t]| ==> acc[t][ch] == FirstTaps(l, w, hist, t, ch, width, j)
  }

  /** kda_conv_silu; a missing state is three rows of zeros. */
  method ConvSilu<F>(l: Layer<F>, x: seq<Vec<F>>, w: (int, int) -> F, width: nat, state: Option<seq<Vec<F>>>)
    returns (out: seq<Vec<F>>, next: seq<Vec<F>>)
    requires Rows(x, width) && (state.Some? ==> IsWindow(state.value, width))
    ensures IsWindow(InitialWindow(l, width, state), width)
    ensures out == Conv(l, w, InitialWindow(l, width, state), x, width)
    ensures next == Window(InitialWindow(l, width, state), x)
  {
    var st := InitialWindow(l, width, state);
    var hist := st + x;
    var acc := seq(|x|, t requires 0 <= t < |x| => seq(width, ch requires 0 <= ch < width => l.o.zero));
    for j := 0 to 4
      invariant |acc| == |x| && HasTaps(l, w, hist, width, acc, j)
    {
      acc := AddTap(l, w, hist, width, acc, j);
    }
    out := AllSilu(l, w, hist, width, acc);
    assert out == Conv(l, w, st, x, width);
    next := hist[|x|..];
  }

  function InitialWindow<F>(l: Layer<F>, width: nat, state: Option<seq<Vec<F>>>): (r: seq<Vec<F>>)
    requires state.Some? ==> IsWindow(state.value, width)
    ensures IsWindow(r, width) && (state.Some? ==> r == state.value)
    ensures state.None? ==> forall j, ch :: 0 <= j < WINDOW && 0 <= ch < width ==> r[j][ch] == l.o.zero
  {
    match state
    case Some(st) => st
    case None => seq(WINDOW, _ => seq(width, _ => l.o.zero))
  }

  /** acc + hist[j:j+T] * w[:, j] */
  method AddTap<F>(l: Layer<F>, w: (int, int) -> F, hist: seq<Vec<F>>, width: nat, acc: seq<Vec<F>>, j: nat)
    returns (sum: seq<Vec<F>>)
    requires j < 4 && Rows(hist, width) && |hist| == |acc| + WINDOW && HasTaps(l, w, hist, width, acc, j)
    ensures |sum| == |acc| && HasTaps(l, w, hist, width, sum, j + 1)
  {
    var n := |acc|;
    sum := seq(n, t requires 0 <= t < n =>
      seq(width, ch requires 0 <= ch < width => l.o.add(acc[t][ch], l.o.mul(hist[t + j][ch], w(ch, j)))));
    forall t, ch | 0 <= t < n && 0 <= ch < width
      ensures sum[t][ch] == FirstTaps(l, w, hist, t, ch, width, j + 1)
    {
      NextTap(l, w, hist, t, ch, width, j);
    }
  }

  method AllSilu<F>(l: Layer<F>, w: (int, int) -> F, hist: seq<Vec<F>>, width: nat, acc: seq<Vec<F>>)
    returns (out: seq<Vec<F>>)
    requires Rows(hist, width) && |hist| == |acc| + WINDOW && HasTaps(l, w, hist, width, acc, 4)
    ensures |out| == |acc| && forall t :: 0 <= t < |acc| ==> out[t] == ConvRow(l, w, hist, t, width)
  {
    var n := |acc|;
    out := seq(n, t requires 0 <= t < n =>
      seq(width, ch requires 0 <= ch < width => l.o.mul(acc[t][ch], l.sigmoid(acc[t][ch]))));
    forall t | 0 <= t < n ensures out[t] == ConvRow(l, w, hist, t, width) {
      forall ch | 0 <= ch < width ensures out[t][ch] == ConvRow(l, w, hist, t, width)[ch] {
        FourTaps(l, w, hist, t, ch, width);
      }
    }
  }
}
