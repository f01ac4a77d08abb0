// recheck_token (tools/gen_kda_golden.py): one token of one head again, with
// scalar convolutions that shift their own history and element-by-element
// updates of a single state; and the comparison with the lockstep run.
module KdaRecheck {
  import opened KdaMath
  import opened KdaGolden

  /** Four taps added one by one, then acc * sig(acc). */
  method Filtered<F(!new)>(o: Ops<F>, h0: F, h1: F, h2: F, xt: F, w0: F, w1: F, w2: F, w3: F) returns (y: F)
    requires NegatesByMinusOne(o)
    ensures y == Silu(o, Taps(o, h0, h1, h2, xt, w0, w1, w2, w3))
  {
    var acc := o.zero;
    acc := o.add(acc, o.mul(h0, w0));
    acc := o.add(acc, o.mul(h1, w1));
    acc := o.add(acc, o.mul(h2, w2));
    acc := o.add(acc, o.mul(xt, w3));
    SigmoidsAgree(o, acc);
    y := o.mul(acc, SigmoidNeg(o, acc));
  }

  /** The three inputs before token t. */
  datatype History<F> = History(h0: F, h1: F, h2: F)

  function HistoryAt<F>(x: Conv<F>, h: int, d: int, ch: int, t: int): History<F> {
    History(Padded(x, h, d, ch, t), Padded(x, h, d, ch, t + 1), Padded(x, h, d, ch, t + 2))
  }

  /** One token of one channel: the output, and the history shifted by one. */
  method ConvStep<F(!new)>(c: Case<F>, x: Conv<F>, h: nat, d: nat, ch: nat, t: nat, hist: History<F>)
    returns (y: F, shifted: History<F>)
    requires NegatesByMinusOne(c.o) && hist == HistoryAt(x, h, d, ch, t)
    ensures y == ConvOut(c.o, x, h, d, ch, t) && shifted == HistoryAt(x, h, d, ch, t + 1)
  {
    var xt := x.raw(t, h, d);
    y := Filtered(c.o, hist.h0, hist.h1, hist.h2, xt,
                  x.weight(ch, 0), x.weight(ch, 1), x.weight(ch, 2), x.weight(ch, 3));
    shifted := History(hist.h1, hist.h2, xt);
  }

  /** One channel, token by token. */
  method ChannelConv<F(!new)>(c: Case<F>, x: Conv<F>, h: nat, d: nat, ch: nat, n: nat) returns (column: Vec<F>)
    requires NegatesByMinusOne(c.o)
    ensures |column| == n && forall t :: 0 <= t < n ==> column[t] == ConvOut(c.o, x, h, d, ch, t)
  {
    column := [];
    var hist := History(x.init(ch, 0), x.init(ch, 1), x.init(ch, 2));
    for t := 0 to n
      invariant hist == HistoryAt(x, h, d, ch, t)
      invariant |column| == t && forall u :: 0 <= u < t ==> column[u] == ConvOut(c.o, x, h, d, ch, u)
    {
      var y, shifted := ConvStep(c, x, h, d, ch, t, hist);
      column, hist := column + [y], shifted;
    }
  }

  /** out[:, d] = column */
  method SetColumn<F>(out: array<Vec<F>>, d: nat, column: Vec<F>)
    requires |column| == out.Length && forall t :: 0 <= t < out.Length ==> d < |out[t]|
    modifies out
    ensures forall t :: 0 <= t < out.Length ==> out[t] == old(out[t])[d := column[t]]
  {
    for t := 0 to out.Length
      invariant forall u :: 0 <= u < t ==> out[u] == old(out[u])[d := column[u]]
      invariant forall u :: t <= u < out.Length ==> out[u] == old(out[u])
    {
      out[t] := out[t][d := column[t]];
    }
  }

  /** The first d channels of a row are done. */
  ghost predicate ConvUpTo<F>(c: Case<F>, x: Conv<F>, h: nat, t: nat, d: nat, row: Vec<F>) {
    |row| == c.dim && forall i :: 0 <= i < d && i < c.dim ==> row[i] == ConvVec(c, x, h, t)[i]
  }

  lemma OneMoreChannel<F>(c: Case<F>, x: Conv<F>, h: nat, t: nat, d: nat, row: Vec<F>)
    requires ConvUpTo(c, x, h, t, d, row) && d < c.dim
    ensures ConvUpTo(c, x, h, t, d + 1, row[d := ConvOut(c.o, x, h, d, h * c.dim + d, t)])
  {
    var y := ConvOut(c.o, x, h, d, h * c.dim + d, t);
    var all := ConvVec(c, x, h, t);
    assert all[d] == y;
    forall i | 0 <= i < d + 1 ensures row[d := y][i] == all[i] {
      assert i < d ==> row[d := y][i] == row[i];
    }
  }

  /** All channels of the head, tokens 0 to last. */
  method HeadConv<F(!new)>(c: Case<F>, x: Conv<F>, h: nat, last: nat) returns (conv: seq<Vec<F>>)
    requires NegatesByMinusOne(c.o)
    ensures |conv| == last + 1 && forall t :: 0 <= t <= last ==> conv[t] == ConvVec(c, x, h, t)
  {
    var out := Zeros(c, last + 1);
    for d := 0 to c.dim
      invariant forall t :: 0 <= t < out.Length ==> ConvUpTo(c, x, h, t, d, out[t])
    {
      ConvColumn(c, x, h, d, out);
    }
    conv := out[..];
    forall t | 0 <= t <= last ensures conv[t] == ConvVec(c, x, h, t) {
      AllChannels(c, x, h, t, conv[t]);
    }
  }

  lemma AllChannels<F>(c: Case<F>, x: Conv<F>, h: nat, t: nat, row: Vec<F>)
    requires ConvUpTo(c, x, h, t, c.dim, row)
    ensures row == ConvVec(c, x, h, t)
  {
  }

  /** The loop body: one channel of all tokens. */
  method ConvColumn<F(!new)>(c: Case<F>, x: Conv<F>, h: nat, d: nat, out: array<Vec<F>>)
    requires NegatesByMinusOne(c.o) && d < c.dim
    requires forall t :: 0 <= t < out.Length ==> ConvUpTo(c, x, h, t, d, out[t])
    modifies out
    ensures forall t :: 0 <= t < out.Length ==> ConvUpTo(c, x, h, t, d + 1, out[t])
  {
    ghost var before := out[..];
    var column := ChannelConv(c, x, h, d, h * c.dim + d, out.Length);
    SetColumn(out, d, column);
    forall t | 0 <= t < out.Length ensures ConvUpTo(c, x, h, t, d + 1, out[t]) {
      OneMoreChannel(c, x, h, t, d, before[t]);
    }
  }

  method Zeros<F>(c: Case<F>, n: nat) returns (out: array<Vec<F>>)
    ensures fresh(out) && out.Length == n && forall t :: 0 <= t < n ==> |out[t]| == c.dim
  {
    out := new Vec<F>[n];
    for t := 0 to n
      invariant forall u :: 0 <= u < t ==> |out[u]| == c.dim
    {
      out[t] := Row(c.dim, _ => c.o.zero);
    }
  }

  /** A row whose first c columns have decayed. */
  function DecayedUpTo<F>(o: Ops<F>, row: Vec<F>, decay: Vec<F>, c: nat): (r: Vec<F>)
    requires |row| == |decay|
    ensures |r| == |row|
  {
    seq(|row|, i requires 0 <= i < |row| => if i < c then o.mul(row[i], decay[i]) else row[i])
  }

  lemma OneMoreColumn<F>(o: Ops<F>, row: Vec<F>, decay: Vec<F>, c: nat)
    requires |row| == |decay| && c < |decay|
    ensures var r := DecayedUpTo(o, row, decay, c);
      r[c := o.mul(r[c], decay[c])] == DecayedUpTo(o, row, decay, c + 1)
  {
  }

  /** for c: S[:, c] *= dec[c] */
  method DecayColumns<F>(o: Ops<F>, s: array<Vec<F>>, decay: Vec<F>)
    requires Square(s[..], |decay|)
    modifies s
    ensures s[..] == Decayed(o, old(s[..]), decay)
  {
    ghost var before := s[..];
    forall v | 0 <= v < |decay| ensures s[v] == DecayedUpTo(o, before[v], decay, 0) {
    }
    for c := 0 to |decay|
      invariant forall v :: 0 <= v < |decay| ==> s[v] == DecayedUpTo(o, before[v], decay, c)
    {
      ghost var mid := s[..];
      DecayColumn(o, s, decay, c);
      forall v | 0 <= v < |decay| ensures s[v] == DecayedUpTo(o, before[v], decay, c + 1) {
        assert mid[v] == DecayedUpTo(o, before[v], decay, c);
        OneMoreColumn(o, before[v], decay, c);
      }
    }
    forall v | 0 <= v < |decay| ensures s[v] == Times(o, before[v], decay) {
    }
  }

  method DecayColumn<F>(o: Ops<F>, s: array<Vec<F>>, decay: Vec<F>, c: nat)
    requires Square(s[..], |decay|) && c < |decay|
    modifies s
    ensures Square(s[..], |decay|)
    ensures forall v :: 0 <= v < s.Length ==> s[v] == old(s[v])[c := o.mul(old(s[v])[c], decay[c])]
  {
    for v := 0 to s.Length
      invariant forall u :: 0 <= u < v ==> s[u] == old(s[u])[c := o.mul(old(s[u])[c], decay[c])]
      invariant forall u :: v <= u < s.Length ==> s[u] == old(s[u])
    {
      s[v] := s[v][c := o.mul(s[v][c], decay[c])];
    }
  }

  /** pred[v] = sum(S[v] * x), one row after the other */
  method RowSums<F>(o: Ops<F>, s: array<Vec<F>>, x: Vec<F>) returns (sums: Vec<F>)
    requires Square(s[..], |x|)
    ensures sums == Read(o, s[..], x)
  {
    sums := [];
    for v := 0 to s.Length
      invariant |sums| == v && forall u :: 0 <= u < v ==> sums[u] == o.sum(Times(o, s[u], x))
    {
      sums := sums + [o.sum(Times(o, s[v], x))];
    }
  }

  /** for v: S[v] += err[v] * k */
  method WriteRows<F>(o: Ops<F>, s: array<Vec<F>>, k: Vec<F>, err: Vec<F>)
    requires Square(s[..], |k|) && |err| == |k|
    modifies s
    ensures s[..] == Written(o, old(s[..]), k, err)
  {
    for v := 0 to s.Length
      invariant forall u :: 0 <= u < v ==> s[u] == RowWritten(o, old(s[u]), k, err[u])
      invariant forall u :: v <= u < s.Length ==> s[u] == old(s[u])
    {
      var row := s[v];
      s[v] := seq(|row|, c requires 0 <= c < |row| => o.add(row[c], o.mul(err[v], k[c])));
      assert s[v] == RowWritten(o, row, k, err[v]);
    }
  }

  /** x / sqrt(sum(x * x) + l2e), the recheck's own */
  method Normalized<F>(o: Ops<F>, x: Vec<F>) returns (r: Vec<F>)
    ensures r == L2Norm(o, x)
  {
    var squares := seq(|x|, i requires 0 <= i < |x| => o.mul(x[i], x[i]));
    assert squares == Times(o, x, x);
    var norm := o.sqrt(o.add(o.sum(squares), o.l2Eps));
    r := seq(|x|, i requires 0 <= i < |x| => o.div(x[i], norm));
  }

  /** gk = g + bias; g_log = lb / (1 + exp(-(amp * gk))); exp(g_log), the recheck's own */
  method DecayFactors<F>(c: Case<F>, h: nat, t: nat) returns (dec: Vec<F>)
    ensures dec == DecayOf(c, h, t)
  {
    var o, amp := c.o, c.o.exp(c.aLog(h));
    var gk := seq(c.dim, i requires 0 <= i < c.dim => o.add(c.rawG(t, h, i), c.dtBias(h, i)));
    var gLog := seq(c.dim, i requires 0 <= i < c.dim =>
      o.div(o.lowerBound, o.add(o.one, o.exp(o.neg(o.mul(amp, gk[i]))))));
    dec := seq(c.dim, i requires 0 <= i < c.dim => o.exp(gLog[i]));
  }

  /** One token of the recheck's own loop. */
  method RecheckStep<F(!new)>(c: Case<F>, s: array<Vec<F>>, q: Vec<F>, k: Vec<F>, v: Vec<F>, h: nat, t: nat)
    returns (core: Vec<F>, onorm: Vec<F>)
    requires NegatesByMinusOne(c.o) && s[..] == State(c, h, t)
    requires q == ConvVec(c, c.q, h, t) && k == ConvVec(c, c.k, h, t) && v == ConvVec(c, c.v, h, t)
    modifies s
    ensures s[..] == State(c, h, t + 1) && core == Core(c, h, t) && onorm == Onorm(c, h, t)
  {
    var unit := Normalized(c.o, q);
    var kn := Normalized(c.o, k);
    var qn := seq(c.dim, i requires 0 <= i < c.dim => c.o.mul(unit[i], c.o.scale));
    assert qn == Query(c, h, t);
    var dec := DecayFactors(c, h, t);
    DecayColumns(c.o, s, dec);
    var pred := RowSums(c.o, s, kn);
    SigmoidsAgree(c.o, c.betaRaw(t, h));
    var err := seq(c.dim, i requires 0 <= i < c.dim =>
      c.o.mul(c.o.sub(v[i], pred[i]), SigmoidNeg(c.o, c.betaRaw(t, h))));
    assert err == Errors(c.o, s[..], kn, v, Sigmoid(c.o, c.betaRaw(t, h)));
    WriteRows(c.o, s, kn, err);
    core := RowSums(c.o, s, qn);
    onorm := GatedNeg(c, core, h, t);
  }

  method GatedNeg<F(!new)>(c: Case<F>, core: Vec<F>, h: nat, t: nat) returns (onorm: Vec<F>)
    requires NegatesByMinusOne(c.o) && core == Core(c, h, t)
    ensures onorm == Onorm(c, h, t)
  {
    var ms := c.o.div(c.o.sum(Times(c.o, core, core)), c.o.width);
    var rms := c.o.sqrt(c.o.add(ms, c.o.rmsEps));
    onorm := seq(c.dim, i requires 0 <= i < c.dim =>
      c.o.mul(c.o.mul(c.o.div(core[i], rms), c.oNormW(i)), SigmoidNeg(c.o, c.g2Raw(t, h, i))));
    forall i | 0 <= i < c.dim ensures onorm[i] == Onorm(c, h, t)[i] {
      SigmoidsAgree(c.o, c.g2Raw(t, h, i));
    }
  }

  /** recheck_token at one precision: core and onorm of token tt of head gh. */
  method RecheckToken<F(!new)>(c: Case<F>, gh: nat, tt: nat) returns (core: Vec<F>, onorm: Vec<F>)
    requires NegatesByMinusOne(c.o)
    ensures core == Core(c, gh, tt) && onorm == Onorm(c, gh, tt)
  {
    var q := HeadConv(c, c.q, gh, tt);
    var k := HeadConv(c, c.k, gh, tt);
    var v := HeadConv(c, c.v, gh, tt);
    core, onorm := RecheckLoop(c, gh, tt, q, k, v);
  }

  method RecheckLoop<F(!new)>(c: Case<F>, gh: nat, tt: nat, q: seq<Vec<F>>, k: seq<Vec<F>>, v: seq<Vec<F>>)
    returns (core: Vec<F>, onorm: Vec<F>)
    requires NegatesByMinusOne(c.o) && |q| == |k| == |v| == tt + 1
    requires forall t :: 0 <= t <= tt ==>
      q[t] == ConvVec(c, c.q, gh, t) && k[t] == ConvVec(c, c.k, gh, t) && v[t] == ConvVec(c, c.v, gh, t)
    ensures core == Core(c, gh, tt) && onorm == Onorm(c, gh, tt)
  {
    var s := CopyState(c, gh);
    core, onorm := [], [];
    for t := 0 to tt + 1
      invariant s[..] == State(c, gh, t)
      invariant t > 0 ==> core == Core(c, gh, t - 1) && onorm == Onorm(c, gh, t - 1)
    {
      core, onorm := RecheckStep(c, s, q[t], k[t], v[t], gh, t);
    }
  }

  method CopyState<F>(c: Case<F>, h: nat) returns (s: array<Vec<F>>)
    ensures fresh(s) && s[..] == State(c, h, 0)
  {
    s := new Vec<F>[c.dim];
    for v := 0 to c.dim
      invariant s[..v] == InitialState(c, h)[..v]
    {
      s[v] := Row(c.dim, k => c.s0(h, v, k));
    }
    assert s[..c.dim] == s[..] && InitialState(c, h)[..c.dim] == InitialState(c, h);
  }

  /** The script's cross-check, for any token and head: the recheck and the run agree, so it never fails. */
  method CrossCheck<F(0, !new, ==)>(c: Case<F>, prefill: nat, gh: nat, tt: nat) returns (agree: bool)
    requires NegatesByMinusOne(c.o) && c.dim > 0 && gh < c.heads && tt < c.tokens
    ensures agree
  {
    var run := RunKda(c, prefill);
    var core, onorm := RecheckToken(c, gh, tt);
    agree := core == run.core[tt, gh] && onorm == run.onorm[tt, gh];
  }
}
