// Growing the TP degree (python/autoconfig/gguf_meta.py, and the claim in
// python/autoconfig/pipeline.py that the per-rank pinned region only shrinks).
// The region is the row-parallel o_proj slots, which may grow because they fall
// off their block size, and a rest that never grows.
module PinnedTp {
  import opened IntMath
  import opened Options
  import opened PinnedRegion

  // ---- the o_proj slots stand out of the alignment ------------------------------

  lemma MultipleOf16(h: nat, x: nat)
    requires h % 16 == 0
    ensures (h * x) % 16 == 0
  {
    var k := h / 16;
    assert h * x == k * x * 16;
    DivModUnique(h * x, k * x, 16, 0);
  }

  lemma Align16Adds(a: nat, b: nat)
    requires b % 16 == 0
    ensures Align16(a + b) == Align16(a) + b
  {
  }

  lemma AlignedAdds(m: Model, rest: nat, slot: nat, includeHc: bool)
    requires slot % 16 == 0
    ensures Aligned(m, rest + slot, includeHc) == Aligned(m, rest, includeHc) + slot
  {
    Align16Adds(rest + if includeHc then HcBytes(m) else 0, slot);
  }

  /** Attention is the aligned rest of the layer's slots plus the o_proj slot. */
  lemma AttentionSplits(m: Model, linear: bool, includeHc: bool, tp: nat, w: Widths, l: nat)
    requires tp > 0 && m.hidden % 16 == 0
    ensures AttentionBytes(m, linear, includeHc, tp, w, l)
      == Aligned(m, RestBytes(m, linear, tp, w, l), includeHc) + OProjBytes(m, linear, tp, w, l)
  {
    var cols := OProjCols(m, linear, tp);
    PackedRows(w, (l, OProj), m.hidden, cols);
    MultipleOf16(m.hidden, if Exact(w, (l, OProj), cols) then BlockBytes(w, (l, OProj), cols) else 2 * cols);
    AlignedAdds(m, RestBytes(m, linear, tp, w, l), OProjBytes(m, linear, tp, w, l), includeHc);
  }

  // ---- the two parts of the region ------------------------------------------------

  /** The o_proj slots of the first n hidden layers, and of the first n MTP blocks. */
  function OProjLayers(m: Model, tp: nat, w: Widths, n: nat): nat
    requires tp > 0
  {
    if n == 0 then 0 else OProjLayers(m, tp, w, n - 1) + OProjBytes(m, IsLinear(m, n - 1), tp, w, n - 1)
  }

  function OProjMtps(m: Model, tp: nat, w: Widths, n: nat): nat
    requires tp > 0
  {
    if n == 0 then 0 else OProjMtps(m, tp, w, n - 1) + OProjBytes(m, false, tp, w, MtpLayer(m, n - 1))
  }

  /** All o_proj slots of one rank. */
  function OProjTotal(m: Model, tp: nat, w: Widths): nat
    requires tp > 0
  {
    OProjLayers(m, tp, w, m.layers) + OProjMtps(m, tp, w, m.mtpLayers)
  }

  function LayerRest(m: Model, shared: Ffn, dense: Ffn, tp: nat, w: Widths, l: nat): nat
    requires tp > 0
  {
    Aligned(m, RestBytes(m, IsLinear(m, l), tp, w, l), true) + LayerOther(m, shared, dense, tp, l)
  }

  function MtpRest(m: Model, shared: Ffn, tp: nat, w: Widths, l: nat): nat
    requires tp > 0
  {
    Aligned(m, RestBytes(m, false, tp, w, l), false) + MtpOther(m, shared, tp)
  }

  function RestLayers(m: Model, shared: Ffn, dense: Ffn, tp: nat, w: Widths, n: nat): nat
    requires tp > 0
  {
    if n == 0 then 0 else RestLayers(m, shared, dense, tp, w, n - 1) + LayerRest(m, shared, dense, tp, w, n - 1)
  }

  function RestMtps(m: Model, shared: Ffn, tp: nat, w: Widths, n: nat): nat
    requires tp > 0
  {
    if n == 0 then 0 else RestMtps(m, shared, tp, w, n - 1) + MtpRest(m, shared, tp, w, MtpLayer(m, n - 1))
  }

  /** The region without its o_proj slots. */
  function RestTotal(m: Model, shared: Ffn, dense: Ffn, tp: nat, w: Widths): nat
    requires tp > 0
  {
    EndsBytes(m, tp) + RestLayers(m, shared, dense, tp, w, m.layers)
    + m.hidden * 2 + RestMtps(m, shared, tp, w, m.mtpLayers) + ALIGN_BUDGET
  }

  lemma LayerSplits(m: Model, shared: Ffn, dense: Ffn, tp: nat, w: Widths, l: nat)
    requires tp > 0 && m.hidden % 16 == 0
    ensures LayerTotal(m, shared, dense, tp, w, l)
      == LayerRest(m, shared, dense, tp, w, l) + OProjBytes(m, IsLinear(m, l), tp, w, l)
  {
    AttentionSplits(m, IsLinear(m, l), true, tp, w, l);
  }

  lemma MtpSplits(m: Model, shared: Ffn, tp: nat, w: Widths, l: nat)
    requires tp > 0 && m.hidden % 16 == 0
    ensures MtpTotal(m, shared, tp, w, l) == MtpRest(m, shared, tp, w, l) + OProjBytes(m, false, tp, w, l)
  {
    AttentionSplits(m, false, false, tp, w, l);
  }

  lemma {:induction false} LayersSplit(m: Model, shared: Ffn, dense: Ffn, tp: nat, w: Widths, n: nat)
    requires tp > 0 && m.hidden % 16 == 0
    ensures Layers(m, shared, dense, tp, w, n) == RestLayers(m, shared, dense, tp, w, n) + OProjLayers(m, tp, w, n)
    decreases n
  {
    if n > 0 {
      assert LayerTotal(m, shared, dense, tp, w, n - 1)
        == LayerRest(m, shared, dense, tp, w, n - 1) + OProjBytes(m, IsLinear(m, n - 1), tp, w, n - 1) by {
        LayerSplits(m, shared, dense, tp, w, n - 1);
      }
      LayersSplit(m, shared, dense, tp, w, n - 1);
    }
  }

  lemma {:induction false} MtpsSplit(m: Model, shared: Ffn, tp: nat, w: Widths, n: nat)
    requires tp > 0 && m.hidden % 16 == 0
    ensures Mtps(m, shared, tp, w, n) == RestMtps(m, shared, tp, w, n) + OProjMtps(m, tp, w, n)
    decreases n
  {
    if n > 0 {
      MtpsSplit(m, shared, tp, w, n - 1);
      MtpSplits(m, shared, tp, w, MtpLayer(m, n - 1));
    }
  }

  lemma BytesSplit(m: Model, shared: Ffn, dense: Ffn, tp: nat, w: Widths)
    requires tp > 0 && m.hidden % 16 == 0
    ensures RegionBytes(m, shared, dense, tp, w) == RestTotal(m, shared, dense, tp, w) + OProjTotal(m, tp, w)
  {
    LayersSplit(m, shared, dense, tp, w, m.layers);
    MtpsSplit(m, shared, tp, w, m.mtpLayers);
  }

  /** A model that can be laid out has a hidden size of whole blocks. */
  lemma HiddenIsAligned(m: Model, q: Weights)
    requires Servable(q) && FfnOf(q, m.hidden, m.moeInt).Some?
    ensures m.hidden % 16 == 0
  {
    var t := if q.Generic? then Q8_0 else q.ggufType;
    assert m.hidden % BlockOf(t).elems == 0;
    assert BlockOf(t).elems in {32, 256};
  }

  // ---- the rest never grows ---------------------------------------------------------

  lemma ShareShrinks(n: nat, tp: nat, wide: nat)
    requires 0 < tp <= wide
    ensures Share(n, wide) <= Share(n, tp)
  {
    DivReaches(n, wide, n / wide);
    MulLe(tp, wide, n / wide);
    DivReaches(n, tp, n / wide);
  }

  lemma LinearFixedShrinks(m: Model, mine: nat, heads: nat, mine': nat, heads': nat)
    requires mine' <= mine && heads' <= heads
    ensures LinearFixed(m, mine', heads') <= LinearFixed(m, mine, heads)
  {
    MulLe(3 * mine', 3 * mine, m.kdaConv);
  }

  lemma LinearShrinks(m: Model, tp: nat, wide: nat, w: Widths, l: nat)
    requires 0 < tp <= wide
    ensures LinearBytes(m, wide, w, l) <= LinearBytes(m, tp, w, l)
  {
    var hd := m.kdaHeads * m.kdaDim;
    ShareShrinks(hd, tp, wide);
    ShareShrinks(m.kdaHeads, tp, wide);
    var mine, mine' := Share(hd, tp), Share(hd, wide);
    PackedRowsMonotone(w, (l, KdaQ), mine', mine, m.hidden);
    PackedRowsMonotone(w, (l, KdaK), mine', mine, m.hidden);
    PackedRowsMonotone(w, (l, KdaV), mine', mine, m.hidden);
    PackedRowsMonotone(w, (l, KdaB), Share(m.kdaHeads, wide), Share(m.kdaHeads, tp), m.hidden);
    PackedRowsMonotone(w, (l, KdaFB), mine', mine, m.kdaDim);
    PackedRowsMonotone(w, (l, KdaGB), mine', mine, m.kdaDim);
    LinearFixedShrinks(m, mine, Share(m.kdaHeads, tp), mine', Share(m.kdaHeads, wide));
  }

  lemma MlaFixedShrinks(m: Model, kvB: nat, kvB': nat)
    requires kvB' <= kvB
    ensures MlaFixed(m, kvB') <= MlaFixed(m, kvB)
  {
    MulLe(kvB', kvB, m.kvLora);
  }

  lemma MlaShrinks(m: Model, tp: nat, wide: nat, w: Widths, l: nat)
    requires 0 < tp <= wide
    ensures MlaBytes(m, wide, w, l) <= MlaBytes(m, tp, w, l)
  {
    var qk, kv := m.heads * (m.qkNope + m.qkRope), m.heads * (m.qkNope + m.vHead);
    ShareShrinks(qk, tp, wide);
    ShareShrinks(kv, tp, wide);
    PackedRowsMonotone(w, (l, QB), Share(qk, wide), Share(qk, tp), m.qLora);
    MlaFixedShrinks(m, Share(kv, tp), Share(kv, wide));
  }

  lemma RestBytesShrink(m: Model, linear: bool, tp: nat, wide: nat, w: Widths, l: nat)
    requires 0 < tp <= wide
    ensures RestBytes(m, linear, wide, w, l) <= RestBytes(m, linear, tp, w, l)
  {
    if linear {
      LinearShrinks(m, tp, wide, w, l);
    } else {
      MlaShrinks(m, tp, wide, w, l);
    }
  }

  lemma SharedShrinks(m: Model, f: Ffn, tp: nat, wide: nat)
    requires 0 < tp <= wide
    ensures SharedBytes(m, f, wide) <= SharedBytes(m, f, tp)
  {
    ShareShrinks(f.gateUp, tp, wide);
    ShareShrinks(f.down, tp, wide);
    MulLe(Share(f.gateUp, wide), Share(f.gateUp, tp), m.sharedExperts);
    MulLe(Share(f.down, wide), Share(f.down, tp), m.sharedExperts);
  }

  lemma LayerOtherShrinks(m: Model, shared: Ffn, dense: Ffn, tp: nat, wide: nat, l: nat)
    requires 0 < tp <= wide
    ensures LayerOther(m, shared, dense, wide, l) <= LayerOther(m, shared, dense, tp, l)
  {
    SharedShrinks(m, shared, tp, wide);
    ShareShrinks(dense.gateUp, tp, wide);
    ShareShrinks(dense.down, tp, wide);
  }

  lemma MtpOtherShrinks(m: Model, shared: Ffn, tp: nat, wide: nat)
    requires 0 < tp <= wide
    ensures MtpOther(m, shared, wide) <= MtpOther(m, shared, tp)
  {
    SharedShrinks(m, shared, tp, wide);
    ShareShrinks(m.hidden * 2 * m.hidden * 2, tp, wide);
  }

  lemma {:induction false} RestLayersShrink(m: Model, shared: Ffn, dense: Ffn, tp: nat, wide: nat, w: Widths, n: nat)
    requires 0 < tp <= wide
    ensures RestLayers(m, shared, dense, wide, w, n) <= RestLayers(m, shared, dense, tp, w, n)
    decreases n
  {
    if n > 0 {
      var l, linear := n - 1, IsLinear(m, n - 1);
      RestLayersShrink(m, shared, dense, tp, wide, w, l);
      RestBytesShrink(m, linear, tp, wide, w, l);
      AlignedLe(m, RestBytes(m, linear, wide, w, l), RestBytes(m, linear, tp, w, l), true);
      LayerOtherShrinks(m, shared, dense, tp, wide, l);
    }
  }

  lemma {:induction false} RestMtpsShrink(m: Model, shared: Ffn, tp: nat, wide: nat, w: Widths, n: nat)
    requires 0 < tp <= wide
    ensures RestMtps(m, shared, wide, w, n) <= RestMtps(m, shared, tp, w, n)
    decreases n
  {
    if n > 0 {
      var l := MtpLayer(m, n - 1);
      RestMtpsShrink(m, shared, tp, wide, w, n - 1);
      RestBytesShrink(m, false, tp, wide, w, l);
      AlignedLe(m, RestBytes(m, false, wide, w, l), RestBytes(m, false, tp, w, l), false);
      MtpOtherShrinks(m, shared, tp, wide);
    }
  }

  lemma EndsShrink(m: Model, tp: nat, wide: nat)
    requires 0 < tp <= wide
    ensures EndsBytes(m, wide) <= EndsBytes(m, tp)
  {
    ShareShrinks(m.vocab * m.hidden * 2, tp, wide);
  }

  /** All but the o_proj slots shrinks, for every model, width scan and pair of degrees. */
  lemma RestShrinks(m: Model, shared: Ffn, dense: Ffn, tp: nat, wide: nat, w: Widths)
    requires 0 < tp <= wide
    ensures RestTotal(m, shared, dense, wide, w) <= RestTotal(m, shared, dense, tp, w)
  {
    EndsShrink(m, tp, wide);
    RestLayersShrink(m, shared, dense, tp, wide, w, m.layers);
    RestMtpsShrink(m, shared, tp, wide, w, m.mtpLayers);
  }

  // ---- exactly when the region grows ------------------------------------------------

  /**
   * Exactly when more TP ranks grow one rank's region: when the o_proj slots
   * grow by more than everything else shrinks.
   */
  lemma RegionGrowsExactly(m: Model, q: Weights, tp: nat, wide: nat, w: Widths)
    requires 0 < tp <= wide && Servable(q) && Region(m, q, tp, w).Some?
    ensures Region(m, q, wide, w).Some?
    ensures var shared, dense := FfnOf(q, m.hidden, m.moeInt).value, FfnOf(q, m.hidden, m.denseInt).value;
      var saved := RestTotal(m, shared, dense, tp, w) - RestTotal(m, shared, dense, wide, w);
      && saved >= 0
      && (Region(m, q, wide, w).value > Region(m, q, tp, w).value
          <==> OProjTotal(m, wide, w) - OProjTotal(m, tp, w) > saved)
  {
    var shared, dense := FfnOf(q, m.hidden, m.moeInt).value, FfnOf(q, m.hidden, m.denseInt).value;
    HiddenIsAligned(m, q);
    RestShrinks(m, shared, dense, tp, wide, w);
    BytesSplit(m, shared, dense, tp, w);
    BytesSplit(m, shared, dense, wide, w);
  }

  /** Hence more ranks never grow the region where the o_proj slots together do not grow. */
  lemma RegionShrinks(m: Model, q: Weights, tp: nat, wide: nat, w: Widths)
    requires 0 < tp <= wide && Servable(q) && OProjTotal(m, wide, w) <= OProjTotal(m, tp, w)
    ensures var few, many := Region(m, q, tp, w), Region(m, q, wide, w);
      few.Some? == many.Some? && (few.Some? ==> many.value <= few.value)
  {
    if Region(m, q, tp, w).Some? {
      RegionGrowsExactly(m, q, tp, wide, w);
    }
  }

  /** Models of MLA layers alone, without MTP blocks. */
  predicate MlaOnly(m: Model) {
    m.mtpLayers == 0 && forall l :: 0 <= l < |m.linear| ==> !m.linear[l]
  }

  /** The two models have the same o_proj slots; all other sizes are free. */
  predicate SameOProj(a: Model, b: Model) {
    a.hidden == b.hidden && a.layers == b.layers && a.heads == b.heads && a.vHead == b.vHead
  }

  lemma {:induction false} SameOProjLayers(a: Model, b: Model, tp: nat, w: Widths, n: nat)
    requires tp > 0 && MlaOnly(a) && MlaOnly(b) && SameOProj(a, b)
    ensures OProjLayers(a, tp, w, n) == OProjLayers(b, tp, w, n)
    decreases n
  {
    if n > 0 {
      SameOProjLayers(a, b, tp, w, n - 1);
    }
  }

  lemma SameOProjTotal(a: Model, b: Model, tp: nat, w: Widths)
    requires tp > 0 && MlaOnly(a) && MlaOnly(b) && SameOProj(a, b)
    ensures OProjTotal(a, tp, w) == OProjTotal(b, tp, w)
  {
    SameOProjLayers(a, b, tp, w, a.layers);
  }

  /** The model with every other sharded slot empty. */
  function Bare(m: Model): Model {
    m.(vocab := 0, qLora := 0, kvLora := 0, moeInt := 0, denseInt := 0, sharedExperts := 0)
  }

  lemma ShareOfNone(tp: nat)
    requires tp > 0
    ensures Share(0, tp) == 0
  {
  }

  lemma NoColumns(w: Widths, s: Slot, rows: nat)
    ensures Packed(w, s, rows, 0) == 0
  {
    PackedRows(w, s, rows, 0);
  }

  lemma BareMla(m: Model, tp: nat, wide: nat, w: Widths, l: nat)
    requires 0 < tp && 0 < wide
    ensures MlaBytes(Bare(m), wide, w, l) == MlaBytes(Bare(m), tp, w, l)
  {
    var b := Bare(m);
    NoColumns(w, (l, QB), Share(b.heads * (b.qkNope + b.qkRope), tp));
    NoColumns(w, (l, QB), Share(b.heads * (b.qkNope + b.qkRope), wide));
  }

  lemma BareOther(m: Model, q: Weights, tp: nat, wide: nat, l: nat)
    requires 0 < tp && 0 < wide && Servable(q) && FfnOf(q, m.hidden, 0).Some?
    ensures var none := FfnOf(q, m.hidden, 0).value;
      LayerOther(Bare(m), none, none, wide, l) == LayerOther(Bare(m), none, none, tp, l)
  {
    var none := FfnOf(q, m.hidden, 0).value;
    assert none.gateUp == 0 && none.down == 0;
    ShareOfNone(tp);
    ShareOfNone(wide);
  }

  lemma BareLayer(m: Model, q: Weights, tp: nat, wide: nat, w: Widths, l: nat)
    requires 0 < tp && 0 < wide && Servable(q) && MlaOnly(m) && FfnOf(q, m.hidden, 0).Some?
    ensures var none := FfnOf(q, m.hidden, 0).value;
      LayerRest(Bare(m), none, none, wide, w, l) == LayerRest(Bare(m), none, none, tp, w, l)
  {
    assert !IsLinear(Bare(m), l);
    BareMla(m, tp, wide, w, l);
    BareOther(m, q, tp, wide, l);
  }

  lemma BareLayers(m: Model, q: Weights, tp: nat, wide: nat, w: Widths, n: nat)
    requires 0 < tp && 0 < wide && Servable(q) && MlaOnly(m) && FfnOf(q, m.hidden, 0).Some?
    ensures var none := FfnOf(q, m.hidden, 0).value;
      RestLayers(Bare(m), none, none, wide, w, n) == RestLayers(Bare(m), none, none, tp, w, n)
  {
    var b, none := Bare(m), FfnOf(q, m.hidden, 0).value;
    forall l: nat ensures LayerRest(b, none, none, wide, w, l) == LayerRest(b, none, none, tp, w, l) {
      BareLayer(m, q, tp, wide, w, l);
    }
    SameRestLayers(b, none, tp, wide, w, n);
  }

  lemma {:induction false} SameRestLayers(m: Model, f: Ffn, tp: nat, wide: nat, w: Widths, n: nat)
    requires 0 < tp && 0 < wide
    requires forall l: nat :: LayerRest(m, f, f, wide, w, l) == LayerRest(m, f, f, tp, w, l)
    ensures RestLayers(m, f, f, wide, w, n) == RestLayers(m, f, f, tp, w, n)
    decreases n
  {
    if n > 0 {
      SameRestLayers(m, f, tp, wide, w, n - 1);
    }
  }

  lemma BareFfn(q: Weights, hidden: nat, inter: nat)
    requires Servable(q) && FfnOf(q, hidden, inter).Some?
    ensures FfnOf(q, hidden, 0).Some?
  {
  }

  /**
   * Exactly when the claim that the region never grows with TP holds of MLA
   * models with given o_proj slots: if and only if those slots together do not
   * grow. Otherwise the model with no other sharded slot is one that grows.
   */
  lemma NeverGrowsExactly(m: Model, q: Weights, tp: nat, wide: nat, w: Widths)
    requires 0 < tp <= wide && Servable(q) && MlaOnly(m) && Region(m, q, tp, w).Some?
    ensures (forall m': Model ::
               MlaOnly(m') && SameOProj(m, m') && Region(m', q, tp, w).Some? && Region(m', q, wide, w).Some? ==>
                 Region(m', q, wide, w).value <= Region(m', q, tp, w).value)
      <==> OProjTotal(m, wide, w) <= OProjTotal(m, tp, w)
  {
    if OProjTotal(m, wide, w) <= OProjTotal(m, tp, w) {
      forall m': Model | MlaOnly(m') && SameOProj(m, m')
          && Region(m', q, tp, w).Some? && Region(m', q, wide, w).Some?
        ensures Region(m', q, wide, w).value <= Region(m', q, tp, w).value
      {
        SameOProjTotal(m, m', tp, w);
        SameOProjTotal(m, m', wide, w);
        RegionShrinks(m', q, tp, wide, w);
      }
    } else {
      BareGrows(m, q, tp, wide, w);
    }
  }

  lemma BareGrows(m: Model, q: Weights, tp: nat, wide: nat, w: Widths)
    requires 0 < tp <= wide && Servable(q) && MlaOnly(m) && Region(m, q, tp, w).Some?
    requires OProjTotal(m, wide, w) > OProjTotal(m, tp, w)
    ensures var b := Bare(m);
      && MlaOnly(b) && SameOProj(m, b) && Region(b, q, tp, w).Some? && Region(b, q, wide, w).Some?
      && Region(b, q, wide, w).value > Region(b, q, tp, w).value
  {
    var b := Bare(m);
    BareFfn(q, m.hidden, m.moeInt);
    BareLayers(m, q, tp, wide, w, m.layers);
    SameOProjTotal(m, b, tp, w);
    SameOProjTotal(m, b, wide, w);
    ShareOfNone(tp);
    ShareOfNone(wide);
    RegionGrowsExactly(b, q, tp, wide, w);
  }

  // ---- slot by slot -----------------------------------------------------------------

  /** The slot does not grow when its columns are cut from more to cols. */
  predicate Narrows(w: Widths, s: Slot, cols: nat, more: nat) {
    !Exact(w, s, more) || Exact(w, s, cols) || 2 * cols <= BlockBytes(w, s, more)
  }

  predicate LayerNarrows(m: Model, linear: bool, tp: nat, wide: nat, w: Widths, l: nat)
    requires 0 < tp && 0 < wide
  {
    Narrows(w, (l, OProj), OProjCols(m, linear, wide), OProjCols(m, linear, tp))
  }

  /** One o_proj slot does not grow exactly when its columns still split into blocks or its BF16 size is no more. */
  lemma OProjShrinksExactly(m: Model, linear: bool, tp: nat, wide: nat, w: Widths, l: nat)
    requires 0 < tp <= wide && m.hidden > 0
    ensures OProjBytes(m, linear, wide, w, l) <= OProjBytes(m, linear, tp, w, l)
      <==> LayerNarrows(m, linear, tp, wide, w, l)
  {
    ShareShrinks(if linear then m.kdaHeads * m.kdaDim else m.heads * m.vHead, tp, wide);
    NarrowerExactly(w, (l, OProj), m.hidden, OProjCols(m, linear, wide), OProjCols(m, linear, tp));
  }

  /** No pinned layer's o_proj slot grows. */
  predicate RegionNarrows(m: Model, tp: nat, wide: nat, w: Widths)
    requires 0 < tp && 0 < wide
  {
    && (forall l: nat :: l < m.layers ==> LayerNarrows(m, IsLinear(m, l), tp, wide, w, l))
    && (forall i: nat :: i < m.mtpLayers ==> LayerNarrows(m, false, tp, wide, w, MtpLayer(m, i)))
  }

  lemma {:induction false} OProjLayersShrink(m: Model, tp: nat, wide: nat, w: Widths, n: nat)
    requires 0 < tp <= wide && m.hidden > 0 && n <= m.layers && RegionNarrows(m, tp, wide, w)
    ensures OProjLayers(m, wide, w, n) <= OProjLayers(m, tp, w, n)
    decreases n
  {
    if n > 0 {
      OProjLayersShrink(m, tp, wide, w, n - 1);
      OProjShrinksExactly(m, IsLinear(m, n - 1), tp, wide, w, n - 1);
    }
  }

  lemma {:induction false} OProjMtpsShrink(m: Model, tp: nat, wide: nat, w: Widths, n: nat)
    requires 0 < tp <= wide && m.hidden > 0 && n <= m.mtpLayers && RegionNarrows(m, tp, wide, w)
    ensures OProjMtps(m, wide, w, n) <= OProjMtps(m, tp, w, n)
    decreases n
  {
    if n > 0 {
      OProjMtpsShrink(m, tp, wide, w, n - 1);
      OProjShrinksExactly(m, false, tp, wide, w, MtpLayer(m, n - 1));
    }
  }

  /** Where no single o_proj slot grows, they do not grow together. */
  lemma NarrowSlotsShrink(m: Model, tp: nat, wide: nat, w: Widths)
    requires 0 < tp <= wide && m.hidden > 0 && RegionNarrows(m, tp, wide, w)
    ensures OProjTotal(m, wide, w) <= OProjTotal(m, tp, w)
  {
    OProjLayersShrink(m, tp, wide, w, m.layers);
    OProjMtpsShrink(m, tp, wide, w, m.mtpLayers);
  }

  lemma {:induction false} NoHiddenNoOProj(m: Model, tp: nat, w: Widths, n: nat)
    requires tp > 0 && m.hidden == 0
    ensures OProjLayers(m, tp, w, n) == 0 && OProjMtps(m, tp, w, n) == 0
    decreases n
  {
    if n > 0 {
      NoHiddenNoOProj(m, tp, w, n - 1);
      PackedRows(w, (n - 1, OProj), 0, OProjCols(m, IsLinear(m, n - 1), tp));
      PackedRows(w, (MtpLayer(m, n - 1), OProj), 0, OProjCols(m, false, tp));
    }
  }

  /** The upper-bound arm shrinks for every model and any two degrees. */
  lemma BoundShrinks(m: Model, q: Weights, tp: nat, wide: nat)
    requires 0 < tp <= wide && Servable(q)
    ensures var few, many := Region(m, q, tp, map[]), Region(m, q, wide, map[]);
      few.Some? == many.Some? && (few.Some? ==> many.value <= few.value)
  {
    if m.hidden > 0 {
      NarrowSlotsShrink(m, tp, wide, map[]);
    } else {
      NoHiddenNoOProj(m, tp, map[], m.layers);
      NoHiddenNoOProj(m, wide, map[], m.layers);
      NoHiddenNoOProj(m, tp, map[], m.mtpLayers);
      NoHiddenNoOProj(m, wide, map[], m.mtpLayers);
    }
    RegionShrinks(m, q, tp, wide, map[]);
  }

  // ---- a region that grows ------------------------------------------------------------

  /** One linear-attention layer of two heads of 128, a hidden size of 25600, all else empty. */
  const WIDE_MODEL := Model(
    25600, 1, 1, [true], 0, 2, 128, 4, 0, 0, 0, 0, 0, 0, 0, 0, 0, 1, 0, 0, 0, 0, 1, 1, 4)

  /** Its attention matrices at Q2_K. */
  const Q2K_WIDTHS: Widths := map[(0, KdaQ) := 10, (0, KdaK) := 10, (0, KdaV) := 10, (0, KdaB) := 10, (0, OProj) := 10]

  /** One rank's region at the wider degree exceeds that at the narrower one by at least n bytes. */
  predicate GrowsAtLeast(m: Model, q: Weights, tp: nat, wide: nat, w: Widths, n: int)
    requires 0 < tp && 0 < wide && Servable(q)
  {
    var few, many := Region(m, q, tp, w), Region(m, q, wide, w);
    few.Some? && many.Some? && many.value >= few.value + n
  }

  /** How much a region grows, from what its o_proj slots gain and the rest saves. */
  lemma GrowsBy(m: Model, q: Weights, tp: nat, wide: nat, w: Widths, f: Ffn, saved: nat, gained: nat)
    requires 0 < tp && 0 < wide && Servable(q)
    requires FfnOf(q, m.hidden, m.moeInt) == Some(f) && FfnOf(q, m.hidden, m.denseInt) == Some(f)
    requires RestTotal(m, f, f, tp, w) <= RestTotal(m, f, f, wide, w) + saved
    requires OProjTotal(m, wide, w) >= OProjTotal(m, tp, w) + gained
    ensures GrowsAtLeast(m, q, tp, wide, w, gained - saved)
  {
    HiddenIsAligned(m, q);
    BytesSplit(m, f, f, tp, w);
    BytesSplit(m, f, f, wide, w);
  }

  lemma WideFfn()
    ensures FfnOf(Generic, WIDE_MODEL.hidden, WIDE_MODEL.moeInt) == Some(Ffn(0, 0))
    ensures FfnOf(Generic, WIDE_MODEL.hidden, WIDE_MODEL.denseInt) == Some(Ffn(0, 0))
  {
  }

  lemma WideOProj()
    ensures OProjTotal(WIDE_MODEL, 1, Q2K_WIDTHS) == 25600 * 84
    ensures OProjTotal(WIDE_MODEL, 2, Q2K_WIDTHS) == 25600 * 256
  {
    var m, w := WIDE_MODEL, Q2K_WIDTHS;
    assert OProjBytes(m, true, 1, w, 0) == 25600 * 84;
    assert OProjBytes(m, true, 2, w, 0) == 25600 * 256;
    assert OProjLayers(m, 1, w, 0) == 0 && OProjLayers(m, 2, w, 0) == 0;
  }

  /** From one TP rank to two its region grows by a megabyte: 256 columns of o_proj pack at Q2_K, 128 do not. */
  lemma RegionMayGrow()
    ensures GrowsAtLeast(WIDE_MODEL, Generic, 1, 2, Q2K_WIDTHS, 1_000_000)
  {
    WideOProj();
    WideSavings();
    WideFfn();
    GrowsBy(WIDE_MODEL, Generic, 1, 2, Q2K_WIDTHS, Ffn(0, 0), 3_400_000, 4_400_000);
  }

  lemma WideSavings()
    ensures var m, w, none := WIDE_MODEL, Q2K_WIDTHS, Ffn(0, 0);
      RestTotal(m, none, none, 1, w) <= RestTotal(m, none, none, 2, w) + 3_400_000
  {
    var m, w, none := WIDE_MODEL, Q2K_WIDTHS, Ffn(0, 0);
    assert LinearBytes(m, 1, w, 0) - LinearBytes(m, 2, w, 0) < 3_340_000;
    assert RestLayers(m, none, none, 1, w, 0) == RestLayers(m, none, none, 2, w, 0) == 0;
    assert LayerRest(m, none, none, 1, w, 0) - LayerRest(m, none, none, 2, w, 0) < 3_340_016;
  }
}
