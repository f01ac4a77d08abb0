// The prefill and decode halves of the golden run (tools/gen_kda_golden.py) are
// one recurrence: a case that starts from the states and windows the run kept
// after its prefill tokens has the remaining tokens' results.
module KdaResume {
  import opened IntMath
  import opened KdaMath
  import opened KdaGolden

  /** The raw inputs from token n on, with the kept window in front. */
  function ResumedConv<F>(zero: F, x: Conv<F>, n: nat, window: seq<Vec<F>>): Conv<F> {
    Conv((t, h, d) => x.raw(t + n, h, d), x.weight,
         (ch, j) => if 0 <= j < |window| && 0 <= ch < |window[j]| then window[j][ch] else zero)
  }

  function StartFrom<F>(zero: F, states: seq<Matrix<F>>): (int, int, int) -> F {
    (h, v, k) =>
      if 0 <= h < |states| && 0 <= v < |states[h]| && 0 <= k < |states[h][v]| then states[h][v][k] else zero
  }

  /** The case of the tokens from n on, from the states and windows a run kept. */
  function Resumed<F>(c: Case<F>, n: nat, run: Run<F>): Case<F>
    requires n <= c.tokens
  {
    c.(tokens := c.tokens - n,
       q := ResumedConv(c.o.zero, c.q, n, run.convQ),
       k := ResumedConv(c.o.zero, c.k, n, run.convK),
       v := ResumedConv(c.o.zero, c.v, n, run.convV),
       rawG := (t, h, d) => c.rawG(t + n, h, d), g2Raw := (t, h, d) => c.g2Raw(t + n, h, d),
       betaRaw := (t, h) => c.betaRaw(t + n, h), s0 := StartFrom(c.o.zero, run.afterPrefill))
  }

  /** The run kept every head's state and the three windows after n tokens. */
  ghost predicate KeptAt<F>(c: Case<F>, n: nat, run: Run<F>) {
    && 0 < n <= c.tokens && c.dim > 0
    && PrefillKept(c, n, c.tokens, run.afterPrefill) && WindowsKept(c, n, run)
  }

  // ---- the convolutions go on -------------------------------------------------------

  lemma PaddedShifts<F>(c: Case<F>, x: Conv<F>, n: nat, w: seq<Vec<F>>, h: nat, d: nat, ch: nat, r: nat)
    requires d < c.dim && h < c.heads && ch == h * c.dim + d && IsWindowAt(c, x, n, w)
    ensures Padded(ResumedConv(c.o.zero, x, n, w), h, d, ch, r) == Padded(x, h, d, ch, n + r)
  {
    ChannelOf(c.dim, h, d);
    var y := ResumedConv(c.o.zero, x, n, w);
    if r < WINDOW {
      assert ch < c.heads * c.dim by {
        MulLe(h + 1, c.heads, c.dim);
      }
      assert y.init(ch, r) == w[r][ch] == Flat(c, x, n + r, ch);
    } else {
      assert y.raw(r - WINDOW, h, d) == x.raw(r - WINDOW + n, h, d);
    }
  }

  lemma ConvShifts<F>(c: Case<F>, x: Conv<F>, n: nat, w: seq<Vec<F>>, h: nat, d: nat, ch: nat, t: nat)
    requires d < c.dim && h < c.heads && ch == h * c.dim + d && IsWindowAt(c, x, n, w)
    ensures ConvOut(c.o, ResumedConv(c.o.zero, x, n, w), h, d, ch, t) == ConvOut(c.o, x, h, d, ch, n + t)
  {
    PaddedShifts(c, x, n, w, h, d, ch, t);
    PaddedShifts(c, x, n, w, h, d, ch, t + 1);
    PaddedShifts(c, x, n, w, h, d, ch, t + 2);
    PaddedShifts(c, x, n, w, h, d, ch, t + 3);
  }

  lemma ConvVecShifts<F>(a: Case<F>, c: Case<F>, x: Conv<F>, n: nat, w: seq<Vec<F>>, h: nat, t: nat)
    requires a.o == c.o && a.dim == c.dim > 0 && h < c.heads && IsWindowAt(c, x, n, w)
    ensures ConvVec(a, ResumedConv(c.o.zero, x, n, w), h, t) == ConvVec(c, x, h, n + t)
  {
    var p, q := ConvVec(a, ResumedConv(c.o.zero, x, n, w), h, t), ConvVec(c, x, h, n + t);
    forall d | 0 <= d < c.dim ensures p[d] == q[d] {
      MulLe(0, h, c.dim);
      ConvShifts(c, x, n, w, h, d, h * c.dim + d, t);
    }
  }

  // ---- the states go on -------------------------------------------------------------

  lemma StartsThere<F>(c: Case<F>, n: nat, run: Run<F>, h: nat)
    requires KeptAt(c, n, run) && h < c.heads
    ensures State(Resumed(c, n, run), h, 0) == State(c, h, n)
  {
    var s := run.afterPrefill[h];
    var a := InitialState(Resumed(c, n, run), h);
    forall v | 0 <= v < c.dim ensures a[v] == s[v] {
      assert forall k :: 0 <= k < c.dim ==> a[v][k] == s[v][k];
    }
  }

  /** What one token feeds into one head's state. */
  datatype Input<F> = Input(k: Vec<F>, v: Vec<F>, decay: Vec<F>, beta: F)

  function InputOf<F>(c: Case<F>, h: nat, t: nat): (x: Input<F>)
    ensures |x.k| == |x.v| == |x.decay| == c.dim
  {
    Input(KeyOf(c, h, t), ConvVec(c, c.v, h, t), DecayOf(c, h, t), c.betaRaw(t, h))
  }

  lemma DecayShifts<F>(c: Case<F>, n: nat, run: Run<F>, h: nat, t: nat)
    requires n <= c.tokens
    ensures DecayOf(Resumed(c, n, run), h, t) == DecayOf(c, h, n + t)
  {
    var r := Resumed(c, n, run);
    assert Row(c.dim, d => r.rawG(t, h, d)) == Row(c.dim, d => c.rawG(n + t, h, d));
    assert Row(c.dim, d => r.dtBias(h, d)) == Row(c.dim, d => c.dtBias(h, d));
  }

  lemma InputShifts<F>(c: Case<F>, n: nat, run: Run<F>, h: nat, t: nat)
    requires KeptAt(c, n, run) && h < c.heads
    ensures InputOf(Resumed(c, n, run), h, t) == InputOf(c, h, n + t)
  {
    var r := Resumed(c, n, run);
    ConvVecShifts(r, c, c.k, n, run.convK, h, t);
    ConvVecShifts(r, c, c.v, n, run.convV, h, t);
    DecayShifts(c, n, run, h, t);
  }

  lemma QueryShifts<F>(c: Case<F>, n: nat, run: Run<F>, h: nat, t: nat)
    requires KeptAt(c, n, run) && h < c.heads
    ensures Query(Resumed(c, n, run), h, t) == Query(c, h, n + t)
  {
    ConvVecShifts(Resumed(c, n, run), c, c.q, n, run.convQ, h, t);
  }

  lemma GateShifts<F>(c: Case<F>, n: nat, run: Run<F>, h: nat, t: nat)
    requires n <= c.tokens
    ensures OutGate(Resumed(c, n, run), h, t) == OutGate(c, h, n + t)
  {
  }

  function Fed<F>(o: Ops<F>, s: Matrix<F>, x: Input<F>): (r: Matrix<F>)
    requires Square(s, |x.k|) && |x.k| == |x.v| == |x.decay|
  {
    Step(o, s, x.k, x.v, x.decay, Sigmoid(o, x.beta))
  }

  lemma OneStep<F>(c: Case<F>, h: nat, t: nat)
    ensures State(c, h, t + 1) == Fed(c.o, State(c, h, t), InputOf(c, h, t))
  {
  }

  /** Two cases in the same state with the same inputs step to the same state. */
  lemma SameStep<F>(a: Case<F>, c: Case<F>, h: nat, t: nat, m: nat)
    requires a.o == c.o && State(a, h, t) == State(c, h, m) && InputOf(a, h, t) == InputOf(c, h, m)
    ensures State(a, h, t + 1) == State(c, h, m + 1)
  {
    OneStep(a, h, t);
    OneStep(c, h, m);
  }

  /** Case a has from its start the inputs that c has from token n on. */
  ghost predicate Follows<F(!new)>(a: Case<F>, c: Case<F>, n: nat, h: nat) {
    a.o == c.o && forall i: nat :: InputOf(a, h, i) == InputOf(c, h, n + i)
  }

  ghost predicate Level<F>(a: Case<F>, c: Case<F>, n: nat, h: nat, t: nat) {
    State(a, h, t) == State(c, h, n + t)
  }

  lemma StaysLevel<F(!new)>(a: Case<F>, c: Case<F>, n: nat, h: nat, t: nat)
    requires Follows(a, c, n, h) && Level(a, c, n, h, t)
    ensures Level(a, c, n, h, t + 1)
  {
    SameStep(a, c, h, t, n + t);
  }

  lemma {:induction false} Onward(p: nat -> bool, t: nat)
    requires p(0) && forall i: nat :: i < t && p(i) ==> p(i + 1)
    ensures p(t)
    decreases t
  {
    if t > 0 {
      Onward(p, t - 1);
    }
  }

  lemma AlwaysLevel<F(!new)>(a: Case<F>, c: Case<F>, n: nat, h: nat, t: nat)
    requires Follows(a, c, n, h) && Level(a, c, n, h, 0)
    ensures Level(a, c, n, h, t)
  {
    ghost var p := (i: nat) => Level(a, c, n, h, i);
    assert forall i: nat :: i < t && p(i) ==> p(i + 1) by {
      forall i: nat | i < t && p(i) ensures p(i + 1) {
        StaysLevel(a, c, n, h, i);
      }
    }
    assert p(0);
    assert p(t) by {
      Onward(p, t);
    }
  }

  lemma ResumedFollows<F(!new)>(c: Case<F>, n: nat, run: Run<F>, h: nat)
    requires KeptAt(c, n, run) && h < c.heads
    ensures Follows(Resumed(c, n, run), c, n, h) && Level(Resumed(c, n, run), c, n, h, 0)
  {
    StartsThere(c, n, run, h);
    forall i: nat ensures InputOf(Resumed(c, n, run), h, i) == InputOf(c, h, n + i) {
      InputShifts(c, n, run, h, i);
    }
  }

  lemma SameOutputs<F>(a: Case<F>, c: Case<F>, h: nat, t: nat, m: nat)
    requires a.o == c.o && a.dim == c.dim && a.oNormW == c.oNormW && State(a, h, t + 1) == State(c, h, m + 1)
    requires Query(a, h, t) == Query(c, h, m) && OutGate(a, h, t) == OutGate(c, h, m)
    ensures Core(a, h, t) == Core(c, h, m) && Onorm(a, h, t) == Onorm(c, h, m)
  {
  }

  lemma OutputsGoOn<F>(c: Case<F>, n: nat, run: Run<F>, h: nat, t: nat)
    requires KeptAt(c, n, run) && h < c.heads && Level(Resumed(c, n, run), c, n, h, t + 1)
    ensures Core(Resumed(c, n, run), h, t) == Core(c, h, n + t)
    ensures Onorm(Resumed(c, n, run), h, t) == Onorm(c, h, n + t)
  {
    QueryShifts(c, n, run, h, t);
    GateShifts(c, n, run, h, t);
    SameOutputs(Resumed(c, n, run), c, h, t, n + t);
  }

  /**
   * Prefill then decode: what the run kept after its prefill tokens is all a
   * decoder needs. Every later state and output is the whole run's.
   */
  lemma PrefillThenDecode<F(!new)>(c: Case<F>, n: nat, run: Run<F>, h: nat, t: nat)
    requires KeptAt(c, n, run) && h < c.heads
    ensures State(Resumed(c, n, run), h, t + 1) == State(c, h, n + t + 1)
    ensures Core(Resumed(c, n, run), h, t) == Core(c, h, n + t)
    ensures Onorm(Resumed(c, n, run), h, t) == Onorm(c, h, n + t)
  {
    ResumedFollows(c, n, run, h);
    AlwaysLevel(Resumed(c, n, run), c, n, h, t + 1);
    OutputsGoOn(c, n, run, h, t);
  }
}
