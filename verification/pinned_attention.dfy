// Growing the TP degree, for any mix of layers (python/autoconfig/gguf_meta.py).
// What matters is the attention: its slots together decide whether the region
// can grow, and for a linear layer, whose q, k and v rows go with the o_proj
// columns, growth is one inequality between what o_proj gains and the rest saves.
module PinnedAttention {
  import opened IntMath
  import opened Options
  import opened PinnedRegion
  import opened PinnedTp

  // ---- the attention of a model -------------------------------------------------

  /** One MTP block's attention, with the projection in front of it that is sharded as well. */
  function MtpAttention(m: Model, tp: nat, w: Widths, l: nat): nat
    requires tp > 0
  {
    AttentionBytes(m, false, false, tp, w, l) + Share(m.hidden * 2 * m.hidden * 2, tp)
  }

  function AttentionLayers(m: Model, tp: nat, w: Widths, n: nat): nat
    requires tp > 0
  {
    if n == 0 then 0
    else AttentionLayers(m, tp, w, n - 1) + AttentionBytes(m, IsLinear(m, n - 1), true, tp, w, n - 1)
  }

  function AttentionMtps(m: Model, tp: nat, w: Widths, n: nat): nat
    requires tp > 0
  {
    if n == 0 then 0 else AttentionMtps(m, tp, w, n - 1) + MtpAttention(m, tp, w, MtpLayer(m, n - 1))
  }

  function AttentionTotal(m: Model, tp: nat, w: Widths): nat
    requires tp > 0
  {
    AttentionLayers(m, tp, w, m.layers) + AttentionMtps(m, tp, w, m.mtpLayers)
  }

  /** The two models differ in the vocabulary and the feed-forward networks at most. */
  predicate SameAttention(a: Model, b: Model) {
    b == a.(vocab := b.vocab, experts := b.experts, moeInt := b.moeInt, denseInt := b.denseInt,
            sharedExperts := b.sharedExperts, firstDense := b.firstDense, moeFreq := b.moeFreq,
            gatingBytes := b.gatingBytes)
  }

  lemma SameLayer(a: Model, b: Model, linear: bool, hc: bool, tp: nat, w: Widths, l: nat)
    requires tp > 0 && SameAttention(a, b)
    ensures AttentionBytes(a, linear, hc, tp, w, l) == AttentionBytes(b, linear, hc, tp, w, l)
  {
  }

  lemma {:induction false} SameLayers(a: Model, b: Model, tp: nat, w: Widths, n: nat)
    requires tp > 0 && SameAttention(a, b)
    ensures AttentionLayers(a, tp, w, n) == AttentionLayers(b, tp, w, n)
    decreases n
  {
    if n > 0 {
      var linear := IsLinear(a, n - 1);
      assert AttentionBytes(a, linear, true, tp, w, n - 1) == AttentionBytes(b, linear, true, tp, w, n - 1) by {
        SameLayer(a, b, linear, true, tp, w, n - 1);
      }
      SameLayers(a, b, tp, w, n - 1);
    }
  }

  lemma {:induction false} SameMtps(a: Model, b: Model, tp: nat, w: Widths, n: nat)
    requires tp > 0 && SameAttention(a, b)
    ensures AttentionMtps(a, tp, w, n) == AttentionMtps(b, tp, w, n)
    decreases n
  {
    if n > 0 {
      var l := MtpLayer(a, n - 1);
      assert MtpAttention(a, tp, w, l) == MtpAttention(b, tp, w, l) by {
        SameLayer(a, b, false, false, tp, w, l);
      }
      SameMtps(a, b, tp, w, n - 1);
    }
  }

  // ---- beside the attention -------------------------------------------------------

  /** No sharded slot beside the attention. */
  predicate Headless(m: Model, f: Ffn) {
    m.vocab == 0 && m.sharedExperts == 0 && f == Ffn(0, 0)
  }

  lemma LayerApart(m: Model, shared: Ffn, dense: Ffn, tp: nat, wide: nat, w: Widths, l: nat)
    requires 0 < tp <= wide
    ensures var few, many := LayerTotal(m, shared, dense, tp, w, l), LayerTotal(m, shared, dense, wide, w, l);
      var linear := IsLinear(m, l);
      var gained := AttentionBytes(m, linear, true, wide, w, l) - AttentionBytes(m, linear, true, tp, w, l);
      many <= few + gained && (Headless(m, shared) && Headless(m, dense) ==> many == few + gained)
  {
    LayerOtherShrinks(m, shared, dense, tp, wide, l);
    ShareOfNone(tp);
    ShareOfNone(wide);
  }

  /** The hidden layers grow by no more than their attention, and by just that when there is nothing else. */
  lemma {:induction false} LayersApart(m: Model, shared: Ffn, dense: Ffn, tp: nat, wide: nat, w: Widths, n: nat)
    requires 0 < tp <= wide
    ensures var few, many := Layers(m, shared, dense, tp, w, n), Layers(m, shared, dense, wide, w, n);
      var gained := AttentionLayers(m, wide, w, n) - AttentionLayers(m, tp, w, n);
      many <= few + gained && (Headless(m, shared) && Headless(m, dense) ==> many == few + gained)
    decreases n
  {
    if n > 0 {
      LayersApart(m, shared, dense, tp, wide, w, n - 1);
      LayerApart(m, shared, dense, tp, wide, w, n - 1);
    }
  }

  lemma MtpApart(m: Model, shared: Ffn, tp: nat, wide: nat, w: Widths, l: nat)
    requires 0 < tp <= wide
    ensures var few, many := MtpTotal(m, shared, tp, w, l), MtpTotal(m, shared, wide, w, l);
      var gained := MtpAttention(m, wide, w, l) - MtpAttention(m, tp, w, l);
      many <= few + gained && (Headless(m, shared) ==> many == few + gained)
  {
    SharedShrinks(m, shared, tp, wide);
    ShareOfNone(tp);
    ShareOfNone(wide);
  }

  lemma {:induction false} MtpsApart(m: Model, shared: Ffn, tp: nat, wide: nat, w: Widths, n: nat)
    requires 0 < tp <= wide
    ensures var few, many := Mtps(m, shared, tp, w, n), Mtps(m, shared, wide, w, n);
      var gained := AttentionMtps(m, wide, w, n) - AttentionMtps(m, tp, w, n);
      many <= few + gained && (Headless(m, shared) ==> many == few + gained)
    decreases n
  {
    if n > 0 {
      MtpsApart(m, shared, tp, wide, w, n - 1);
      MtpApart(m, shared, tp, wide, w, MtpLayer(m, n - 1));
    }
  }

  lemma EndsApart(m: Model, tp: nat, wide: nat)
    requires 0 < tp <= wide
    ensures EndsBytes(m, wide) <= EndsBytes(m, tp)
    ensures m.vocab == 0 ==> EndsBytes(m, wide) == EndsBytes(m, tp)
  {
    EndsShrink(m, tp, wide);
    ShareOfNone(tp);
    ShareOfNone(wide);
  }

  /** A region grows by no more than its attention, and by just that when no other slot is sharded. */
  lemma RegionApart(m: Model, q: Weights, tp: nat, wide: nat, w: Widths)
    requires 0 < tp <= wide && Servable(q) && Region(m, q, tp, w).Some?
    ensures Region(m, q, wide, w).Some?
    ensures var few, many := Region(m, q, tp, w).value, Region(m, q, wide, w).value;
      var gained := AttentionTotal(m, wide, w) - AttentionTotal(m, tp, w);
      && many <= few + gained
      && (Headless(m, FfnOf(q, m.hidden, m.moeInt).value) && Headless(m, FfnOf(q, m.hidden, m.denseInt).value)
          ==> many == few + gained)
  {
    var shared, dense := FfnOf(q, m.hidden, m.moeInt).value, FfnOf(q, m.hidden, m.denseInt).value;
    LayersApart(m, shared, dense, tp, wide, w, m.layers);
    MtpsApart(m, shared, tp, wide, w, m.mtpLayers);
    EndsApart(m, tp, wide);
  }

  /** The model with neither a vocabulary nor feed-forward networks. */
  function AttentionOnly(m: Model): Model {
    m.(vocab := 0, moeInt := 0, denseInt := 0, sharedExperts := 0)
  }

  lemma OnlyIsHeadless(m: Model, q: Weights)
    requires Servable(q) && FfnOf(q, m.hidden, m.moeInt).Some?
    ensures FfnOf(q, m.hidden, 0).Some? && Headless(AttentionOnly(m), FfnOf(q, m.hidden, 0).value)
  {
    BareFfn(q, m.hidden, m.moeInt);
  }

  /**
   * Exactly when the claim that the region never grows with TP holds of all
   * models with given attention, linear, MLA and MTP layers in any mix: if and
   * only if the attention slots together do not grow.
   */
  lemma AttentionDecides(m: Model, q: Weights, tp: nat, wide: nat, w: Widths)
    requires 0 < tp <= wide && Servable(q) && Region(m, q, tp, w).Some?
    ensures (forall m': Model :: SameAttention(m, m') && Region(m', q, tp, w).Some? && Region(m', q, wide, w).Some? ==>
               Region(m', q, wide, w).value <= Region(m', q, tp, w).value)
      <==> AttentionTotal(m, wide, w) <= AttentionTotal(m, tp, w)
  {
    if AttentionTotal(m, wide, w) <= AttentionTotal(m, tp, w) {
      forall m': Model | SameAttention(m, m') && Region(m', q, tp, w).Some? && Region(m', q, wide, w).Some?
        ensures Region(m', q, wide, w).value <= Region(m', q, tp, w).value
      {
        SameTotals(m, m', tp, wide, w);
        RegionApart(m', q, tp, wide, w);
      }
    } else {
      OnlyGrows(m, q, tp, wide, w);
    }
  }

  lemma SameTotals(a: Model, b: Model, tp: nat, wide: nat, w: Widths)
    requires 0 < tp && 0 < wide && SameAttention(a, b)
    ensures AttentionTotal(a, tp, w) == AttentionTotal(b, tp, w)
    ensures AttentionTotal(a, wide, w) == AttentionTotal(b, wide, w)
  {
    SameLayers(a, b, tp, w, a.layers);
    SameMtps(a, b, tp, w, a.mtpLayers);
    SameLayers(a, b, wide, w, a.layers);
    SameMtps(a, b, wide, w, a.mtpLayers);
  }

  lemma OnlyGrows(m: Model, q: Weights, tp: nat, wide: nat, w: Widths)
    requires 0 < tp <= wide && Servable(q) && Region(m, q, tp, w).Some?
    requires AttentionTotal(m, wide, w) > AttentionTotal(m, tp, w)
    ensures var b := AttentionOnly(m);
      && SameAttention(m, b) && Region(b, q, tp, w).Some? && Region(b, q, wide, w).Some?
      && Region(b, q, wide, w).value > Region(b, q, tp, w).value
  {
    OnlyIsHeadless(m, q);
    SameTotals(m, AttentionOnly(m), tp, wide, w);
    RegionApart(AttentionOnly(m), q, tp, wide, w);
  }

  // ---- one linear layer -------------------------------------------------------------

  /** Bytes of one row of a slot. */
  function RowBytes(w: Widths, s: Slot, cols: nat): nat {
    if Exact(w, s, cols) then BlockBytes(w, s, cols) else 2 * cols
  }

  /** What one channel costs beside its o_proj column: rows of q, k, v and the two gates, taps, A and bias. */
  function ChannelBytes(m: Model, w: Widths, l: nat): nat {
    RowBytes(w, (l, KdaQ), m.hidden) + RowBytes(w, (l, KdaK), m.hidden) + RowBytes(w, (l, KdaV), m.hidden)
    + RowBytes(w, (l, KdaFB), m.kdaDim) + RowBytes(w, (l, KdaGB), m.kdaDim) + 12 * m.kdaConv + 4
  }

  function HeadBytes(m: Model, w: Widths, l: nat): nat {
    RowBytes(w, (l, KdaB), m.hidden) + 4
  }

  /** What every rank holds in full. */
  function ReplicatedBytes(m: Model, w: Widths, l: nat): nat {
    Packed(w, (l, KdaFA), m.kdaDim, m.hidden) + Packed(w, (l, KdaGA), m.kdaDim, m.hidden) + m.kdaDim * 4
  }

  /** A linear layer beside o_proj, for so many channels and heads. */
  function LinearFor(m: Model, channels: nat, heads: nat, w: Widths, l: nat): nat {
    Rows(channels, ChannelBytes(m, w, l)) + Rows(heads, HeadBytes(m, w, l)) + ReplicatedBytes(m, w, l)
  }

  function Rows(n: nat, bytes: nat): nat {
    n * bytes
  }

  lemma PackedIsRows(w: Widths, s: Slot, n: nat, cols: nat)
    ensures Packed(w, s, n, cols) == Rows(n, RowBytes(w, s, cols))
  {
    PackedRows(w, s, n, cols);
  }

  lemma ByRows(n: nat, heads: nat, q: nat, k: nat, v: nat, f: nat, g: nat, b: nat, conv: nat)
    ensures Rows(n, q) + Rows(n, k) + Rows(n, v) + Rows(n, f) + Rows(n, g) + Rows(heads, b)
            + (3 * n * conv * 4 + heads * 4 + n * 4)
         == Rows(n, q + k + v + f + g + 12 * conv + 4) + Rows(heads, b + 4)
  {
  }

  /** Its bytes at a TP degree are those of its rank's channels and heads. */
  lemma LinearByRows(m: Model, tp: nat, w: Widths, l: nat)
    requires tp > 0
    ensures LinearBytes(m, tp, w, l) == LinearFor(m, Share(m.kdaHeads * m.kdaDim, tp), Share(m.kdaHeads, tp), w, l)
  {
    var mine, heads := Share(m.kdaHeads * m.kdaDim, tp), Share(m.kdaHeads, tp);
    var q, k, v := RowBytes(w, (l, KdaQ), m.hidden), RowBytes(w, (l, KdaK), m.hidden), RowBytes(w, (l, KdaV), m.hidden);
    var f, g := RowBytes(w, (l, KdaFB), m.kdaDim), RowBytes(w, (l, KdaGB), m.kdaDim);
    var b := RowBytes(w, (l, KdaB), m.hidden);
    PackedIsRows(w, (l, KdaQ), mine, m.hidden);
    PackedIsRows(w, (l, KdaK), mine, m.hidden);
    PackedIsRows(w, (l, KdaV), mine, m.hidden);
    PackedIsRows(w, (l, KdaB), heads, m.hidden);
    PackedIsRows(w, (l, KdaFB), mine, m.kdaDim);
    PackedIsRows(w, (l, KdaGB), mine, m.kdaDim);
    ByRows(mine, heads, q, k, v, f, g, b, m.kdaConv);
  }

  /** A linear layer's aligned slots beside o_proj. */
  function LinearRest(m: Model, hc: bool, tp: nat, w: Widths, l: nat): nat
    requires tp > 0
  {
    Aligned(m, LinearFor(m, Share(m.kdaHeads * m.kdaDim, tp), Share(m.kdaHeads, tp), w, l), hc)
  }

  /**
   * Exactly when a linear layer grows with TP: when its o_proj columns fall off
   * their blocks, and what o_proj gains by going to BF16 is more than what the
   * channels and heads that leave the rank save.
   */
  lemma LinearGrowsExactly(m: Model, hc: bool, tp: nat, wide: nat, w: Widths, l: nat)
    requires 0 < tp <= wide && m.hidden > 0 && m.hidden % 16 == 0
    ensures AttentionBytes(m, true, hc, wide, w, l) > AttentionBytes(m, true, hc, tp, w, l)
      <==> var cols, more := OProjCols(m, true, wide), OProjCols(m, true, tp);
      && !Narrows(w, (l, OProj), cols, more)
      && m.hidden * (2 * cols - BlockBytes(w, (l, OProj), more))
         > LinearRest(m, hc, tp, w, l) - LinearRest(m, hc, wide, w, l)
  {
    AttentionSplits(m, true, hc, tp, w, l);
    AttentionSplits(m, true, hc, wide, w, l);
    LinearByRows(m, tp, w, l);
    LinearByRows(m, wide, w, l);
    LinearShrinks(m, tp, wide, w, l);
    AlignedLe(m, LinearBytes(m, wide, w, l), LinearBytes(m, tp, w, l), hc);
    OProjShrinksExactly(m, true, tp, wide, w, l);
    OProjGains(m, tp, wide, w, l);
  }

  /** What the o_proj slot gains where its columns fall off their blocks. */
  lemma OProjGains(m: Model, tp: nat, wide: nat, w: Widths, l: nat)
    requires 0 < tp <= wide
    ensures var cols, more := OProjCols(m, true, wide), OProjCols(m, true, tp);
      !Narrows(w, (l, OProj), cols, more) ==>
        OProjBytes(m, true, wide, w, l) - OProjBytes(m, true, tp, w, l)
          == m.hidden * (2 * cols - BlockBytes(w, (l, OProj), more))
  {
    var cols, more := OProjCols(m, true, wide), OProjCols(m, true, tp);
    PackedRows(w, (l, OProj), m.hidden, cols);
    PackedRows(w, (l, OProj), m.hidden, more);
  }
}
