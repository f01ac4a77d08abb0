// The pinned VRAM region of one TP rank for the glm5_next architecture served
// from a GGUF checkpoint (python/autoconfig/gguf_meta.py): the scan of real
// tensor widths, the slot formulas in their exact and their bound arm, the sum.
module PinnedRegion {
  import opened Options
  import opened IntMath

  // ---- block types ----------------------------------------------------------

  datatype Block = Block(bytes: nat, elems: nat)

  const F32 := 0
  const F16 := 1
  const Q8_0 := 8
  const MXFP4 := 39

  /** The packed families the engine uploads as they are. */
  predicate KQuant(t: nat) {
    t in {8, 10, 11, 12, 13, 14, 39}
  }

  function BlockOf(t: nat): Block
    requires KQuant(t)
  {
    if t == 8 then Block(34, 32)
    else if t == 10 then Block(84, 256)
    else if t == 11 then Block(110, 256)
    else if t == 12 then Block(144, 256)
    else if t == 13 then Block(176, 256)
    else if t == 14 then Block(210, 256)
    else Block(17, 32)
  }

  /** Bytes of 256 elements: how wide the type is. */
  function Rank(t: nat): nat
    requires KQuant(t)
  {
    256 / BlockOf(t).elems * BlockOf(t).bytes
  }

  /** No two of the types are equally wide. */
  lemma RanksDistinct(a: nat, b: nat)
    requires KQuant(a) && KQuant(b) && Rank(a) == Rank(b)
    ensures a == b
  {
  }

  // ---- the width scan -------------------------------------------------------

  datatype Component =
    | KdaQ | KdaK | KdaV | KdaB | KdaFA | KdaGA | KdaFB | KdaGB | OProj
    | QA | QB | KvA | IndexerWqB | IndexerWk

  type Slot = (nat, Component)

  /** A tensor descriptor: the packed slot its name denotes, if any, and its type. */
  datatype Tensor = Tensor(slot: Option<Slot>, ggufType: nat)

  type Widths = map<Slot, nat>

  ghost predicate Counts(t: Tensor, s: Slot) {
    KQuant(t.ggufType) && t.slot == Some(s)
  }

  /** w gives every packed slot the widest of the types that occur for it, and nothing else. */
  ghost predicate IsScan(tensors: seq<Tensor>, w: Widths) {
    && (forall s :: s in w ==> KQuant(w[s]) && Tensor(Some(s), w[s]) in tensors)
    && (forall t <- tensors :: t.slot.Some? && KQuant(t.ggufType) ==>
          t.slot.value in w && Rank(t.ggufType) <= Rank(w[t.slot.value]))
  }

  /** The scan over all shards' descriptors, in whatever order they come. */
  method ScanWidths(tensors: seq<Tensor>) returns (w: Widths)
    ensures IsScan(tensors, w)
  {
    w := map[];
    for i := 0 to |tensors|
      invariant IsScan(tensors[..i], w)
    {
      var t := tensors[i];
      assert tensors[..i + 1] == tensors[..i] + [t];
      if KQuant(t.ggufType) && t.slot.Some? {
        var s := t.slot.value;
        if s !in w || Rank(t.ggufType) > Rank(w[s]) {
          w := w[s := t.ggufType];
        }
      }
    }
    assert tensors[..|tensors|] == tensors;
  }

  /** The order of the shards, and of the tensors in them, does not matter. */
  lemma ScanOrderIrrelevant(a: seq<Tensor>, b: seq<Tensor>, v: Widths, w: Widths)
    requires IsScan(a, v) && IsScan(b, w) && forall t :: t in a <==> t in b
    ensures v == w
  {
    forall s | s in v ensures s in w && w[s] == v[s] {
      ScanAgrees(a, b, v, w, s);
    }
    forall s | s in w ensures s in v {
      ScanAgrees(b, a, w, v, s);
    }
  }

  lemma ScanAgrees(a: seq<Tensor>, b: seq<Tensor>, v: Widths, w: Widths, s: Slot)
    requires IsScan(a, v) && IsScan(b, w) && (forall t :: t in a <==> t in b) && s in v
    ensures s in w && w[s] == v[s]
  {
    var t := Tensor(Some(s), v[s]);
    assert t in a && t in b;
    var u := Tensor(Some(s), w[s]);
    assert u in b && u in a;
    RanksDistinct(v[s], w[s]);
  }

  // ---- one slot -------------------------------------------------------------

  function Bf16Bytes(rows: nat, cols: nat): nat {
    rows * cols * 2
  }

  /** The checkpoint's own width where it is known and the columns split into whole blocks, else BF16. */
  function Packed(w: Widths, s: Slot, rows: nat, cols: nat): nat {
    if s in w && KQuant(w[s]) && cols % BlockOf(w[s]).elems == 0
    then rows * (cols / BlockOf(w[s]).elems) * BlockOf(w[s]).bytes
    else Bf16Bytes(rows, cols)
  }

  /** Is the slot sized at the checkpoint's width for this many columns? */
  predicate Exact(w: Widths, s: Slot, cols: nat) {
    s in w && KQuant(w[s]) && cols % BlockOf(w[s]).elems == 0
  }

  function BlockBytes(w: Widths, s: Slot, cols: nat): nat
    requires s in w && KQuant(w[s])
  {
    cols / BlockOf(w[s]).elems * BlockOf(w[s]).bytes
  }

  lemma PackedRows(w: Widths, s: Slot, rows: nat, cols: nat)
    ensures Packed(w, s, rows, cols) == rows * if Exact(w, s, cols) then BlockBytes(w, s, cols) else 2 * cols
  {
    if Exact(w, s, cols) {
      var b := BlockOf(w[s]);
      assert rows * (cols / b.elems) * b.bytes == rows * (cols / b.elems * b.bytes);
    }
  }

  lemma ScaledLe(rows: nat, a: nat, b: nat)
    requires rows > 0
    ensures rows * a <= rows * b <==> a <= b
  {
    if a <= b {
      MulLe(a, b, rows);
    } else {
      MulLe(b + 1, a, rows);
      assert rows * (b + 1) == rows * b + rows;
    }
  }

  lemma BlockBytesMonotone(w: Widths, s: Slot, cols: nat, more: nat)
    requires s in w && KQuant(w[s]) && cols <= more
    ensures BlockBytes(w, s, cols) <= BlockBytes(w, s, more)
  {
    DivLe(cols, more, BlockOf(w[s]).elems);
    MulLe(cols / BlockOf(w[s]).elems, more / BlockOf(w[s]).elems, BlockOf(w[s]).bytes);
  }

  lemma BlockBytesAtMostBf16(w: Widths, s: Slot, cols: nat)
    requires s in w && KQuant(w[s])
    ensures BlockBytes(w, s, cols) <= 2 * cols
  {
    var b := BlockOf(w[s]);
    MulLe(b.bytes, 2 * b.elems, cols / b.elems);
    assert cols / b.elems * (2 * b.elems) == 2 * (cols / b.elems * b.elems);
  }

  /** Every packed type takes at most two bytes an element. */
  lemma PackedBelowBf16(w: Widths, s: Slot, rows: nat, cols: nat)
    ensures Packed(w, s, rows, cols) <= Bf16Bytes(rows, cols)
  {
    PackedRows(w, s, rows, cols);
    if Exact(w, s, cols) {
      BlockBytesAtMostBf16(w, s, cols);
      MulLe(BlockBytes(w, s, cols), 2 * cols, rows);
    }
  }

  /** Fewer rows take no more. */
  lemma PackedRowsMonotone(w: Widths, s: Slot, rows: nat, more: nat, cols: nat)
    requires rows <= more
    ensures Packed(w, s, rows, cols) <= Packed(w, s, more, cols)
  {
    PackedRows(w, s, rows, cols);
    PackedRows(w, s, more, cols);
    MulLe(rows, more, if Exact(w, s, cols) then BlockBytes(w, s, cols) else 2 * cols);
  }

  /**
   * Exactly when narrowing a row-parallel slot shrinks it: always, unless the
   * narrower columns no longer split into blocks and their BF16 size is above
   * the packed size of the wider ones.
   */
  lemma NarrowerExactly(w: Widths, s: Slot, rows: nat, cols: nat, more: nat)
    requires cols <= more && rows > 0
    ensures Packed(w, s, rows, cols) <= Packed(w, s, rows, more)
      <==> !Exact(w, s, more) || Exact(w, s, cols) || 2 * cols <= BlockBytes(w, s, more)
  {
    PackedRows(w, s, rows, cols);
    PackedRows(w, s, rows, more);
    var a := if Exact(w, s, cols) then BlockBytes(w, s, cols) else 2 * cols;
    var b := if Exact(w, s, more) then BlockBytes(w, s, more) else 2 * more;
    ScaledLe(rows, a, b);
    if s in w && KQuant(w[s]) {
      BlockBytesMonotone(w, s, cols, more);
      BlockBytesAtMostBf16(w, s, cols);
    }
  }

  /** The o_proj slot grows with the TP degree here: 256 columns pack at Q2_K, 128 do not. */
  lemma NarrowerMayGrow()
    ensures var w: Widths := map[(0, OProj) := 10];
      Packed(w, (0, OProj), 1, 128) > Packed(w, (0, OProj), 1, 256)
  {
  }

  // ---- one attention layer --------------------------------------------------

  datatype Model = Model(
    hidden: nat, vocab: nat, layers: nat, linear: seq<bool>, mtpLayers: nat,
    kdaHeads: nat, kdaDim: nat, kdaConv: nat,
    qLora: nat, kvLora: nat, qkNope: nat, qkRope: nat, vHead: nat, heads: nat,
    indexHeads: nat, indexDim: nat, indexKpool: nat, hcMult: nat,
    experts: nat, moeInt: nat, denseInt: nat, sharedExperts: nat, firstDense: nat, moeFreq: nat,
    gatingBytes: nat)

  /** Generic GGUF is mixed per tensor and sized at Q8_0 outside attention; else one uniform type. */
  datatype Weights = Generic | Uniform(ggufType: nat)

  function Align16(n: nat): nat {
    (n + 15) / 16 * 16
  }

  lemma Align16Monotone(a: nat, b: nat)
    requires a <= b
    ensures Align16(a) <= Align16(b)
  {
  }

  function HcBytes(m: Model): nat {
    var hc: nat := Max(1, m.hcMult);
    var mix := (2 + hc) * hc;
    2 * (mix * (hc * m.hidden) * 4 + mix * 4 + 12)
  }

  /** What one rank gets of n. */
  function Share(n: nat, tp: nat): nat
    requires tp > 0
  {
    n / tp
  }

  /** One rank's columns of a layer's row-parallel o_proj. */
  function OProjCols(m: Model, linear: bool, tp: nat): nat
    requires tp > 0
  {
    Share(if linear then m.kdaHeads * m.kdaDim else m.heads * m.vHead, tp)
  }

  function OProjBytes(m: Model, linear: bool, tp: nat, w: Widths, l: nat): nat
    requires tp > 0
  {
    Packed(w, (l, OProj), m.hidden, OProjCols(m, linear, tp))
  }

  /** A linear-attention layer's slots but o_proj, without alignment. */
  function LinearBytes(m: Model, tp: nat, w: Widths, l: nat): nat
    requires tp > 0
  {
    var hd := m.kdaHeads * m.kdaDim;
    var mine, heads := Share(hd, tp), Share(m.kdaHeads, tp);
    Packed(w, (l, KdaQ), mine, m.hidden) + Packed(w, (l, KdaK), mine, m.hidden)
    + Packed(w, (l, KdaV), mine, m.hidden) + Packed(w, (l, KdaB), heads, m.hidden)
    + Packed(w, (l, KdaFA), m.kdaDim, m.hidden) + Packed(w, (l, KdaGA), m.kdaDim, m.hidden)
    + Packed(w, (l, KdaFB), mine, m.kdaDim) + Packed(w, (l, KdaGB), mine, m.kdaDim)
    + LinearFixed(m, mine, heads)
  }

  /** Convolutions, A_log, dt_bias and o_norm, all uploaded as F32. */
  function LinearFixed(m: Model, mine: nat, heads: nat): nat {
    3 * mine * m.kdaConv * 4 + heads * 4 + mine * 4 + m.kdaDim * 4
  }

  /** A sparse-MLA layer's slots but o_proj, without alignment. */
  function MlaBytes(m: Model, tp: nat, w: Widths, l: nat): nat
    requires tp > 0
  {
    Packed(w, (l, QA), m.qLora, m.hidden)
    + Packed(w, (l, QB), Share(m.heads * (m.qkNope + m.qkRope), tp), m.qLora)
    + Packed(w, (l, KvA), m.kvLora + m.qkRope, m.hidden)
    + Packed(w, (l, IndexerWqB), m.indexHeads * m.indexDim, m.qLora)
    + Packed(w, (l, IndexerWk), m.indexDim, m.hidden)
    + MlaFixed(m, Share(m.heads * (m.qkNope + m.vHead), tp))
  }

  /** Norms, the combined kv_b, the indexer's norms and weights, and the compressor where there is one. */
  function MlaFixed(m: Model, kvB: nat): nat {
    m.qLora * 2 + m.kvLora * 2 + kvB * m.kvLora * 2 + 2 * m.indexDim * 2 + m.indexHeads * m.hidden * 4
    + if m.indexKpool > 1 then m.indexDim * m.hidden * 2 + m.indexKpool * m.indexDim * 4 else 0
  }

  /** A layer's slots but o_proj. */
  function RestBytes(m: Model, linear: bool, tp: nat, w: Widths, l: nat): nat
    requires tp > 0
  {
    if linear then LinearBytes(m, tp, w, l) else MlaBytes(m, tp, w, l)
  }

  function LayerBytes(m: Model, linear: bool, tp: nat, w: Widths, l: nat): nat
    requires tp > 0
  {
    RestBytes(m, linear, tp, w, l) + OProjBytes(m, linear, tp, w, l)
  }

  /** glm5_next_attention_layer_bytes on a GGUF checkpoint. */
  function AttentionBytes(m: Model, linear: bool, includeHc: bool, tp: nat, w: Widths, l: nat): nat
    requires tp > 0
  {
    Aligned(m, LayerBytes(m, linear, tp, w, l), includeHc)
  }

  /** A layer's slots with the hc tensors, aligned. */
  function Aligned(m: Model, slots: nat, includeHc: bool): nat {
    Align16(slots + if includeHc then HcBytes(m) else 0)
  }

  lemma LinearBelowBound(m: Model, tp: nat, w: Widths, l: nat)
    requires tp > 0
    ensures LinearBytes(m, tp, w, l) <= LinearBytes(m, tp, map[], l)
  {
    var mine, heads := Share(m.kdaHeads * m.kdaDim, tp), Share(m.kdaHeads, tp);
    PackedBelowBf16(w, (l, KdaQ), mine, m.hidden);
    PackedBelowBf16(w, (l, KdaK), mine, m.hidden);
    PackedBelowBf16(w, (l, KdaV), mine, m.hidden);
    PackedBelowBf16(w, (l, KdaB), heads, m.hidden);
    PackedBelowBf16(w, (l, KdaFA), m.kdaDim, m.hidden);
    PackedBelowBf16(w, (l, KdaGA), m.kdaDim, m.hidden);
    PackedBelowBf16(w, (l, KdaFB), mine, m.kdaDim);
    PackedBelowBf16(w, (l, KdaGB), mine, m.kdaDim);
  }

  lemma MlaBelowBound(m: Model, tp: nat, w: Widths, l: nat)
    requires tp > 0
    ensures MlaBytes(m, tp, w, l) <= MlaBytes(m, tp, map[], l)
  {
    PackedBelowBf16(w, (l, QA), m.qLora, m.hidden);
    PackedBelowBf16(w, (l, QB), Share(m.heads * (m.qkNope + m.qkRope), tp), m.qLora);
    PackedBelowBf16(w, (l, KvA), m.kvLora + m.qkRope, m.hidden);
    PackedBelowBf16(w, (l, IndexerWqB), m.indexHeads * m.indexDim, m.qLora);
    PackedBelowBf16(w, (l, IndexerWk), m.indexDim, m.hidden);
  }

  lemma LayerBelowBound(m: Model, linear: bool, tp: nat, w: Widths, l: nat)
    requires tp > 0
    ensures LayerBytes(m, linear, tp, w, l) <= LayerBytes(m, linear, tp, map[], l)
  {
    RestBelowBound(m, linear, tp, w, l);
    PackedBelowBf16(w, (l, OProj), m.hidden, OProjCols(m, linear, tp));
  }

  lemma RestBelowBound(m: Model, linear: bool, tp: nat, w: Widths, l: nat)
    requires tp > 0
    ensures RestBytes(m, linear, tp, w, l) <= RestBytes(m, linear, tp, map[], l)
  {
    if linear {
      LinearBelowBound(m, tp, w, l);
    } else {
      MlaBelowBound(m, tp, w, l);
    }
  }

  /** Alignment and the hc tensors keep the order of two layers' slots. */
  lemma AlignedLe(m: Model, a: nat, b: nat, includeHc: bool)
    requires a <= b
    ensures Aligned(m, a, includeHc) <= Aligned(m, b, includeHc)
  {
    var hc := if includeHc then HcBytes(m) else 0;
    Align16Monotone(a + hc, b + hc);
  }

  /** The exact arm of a layer is never above the bound arm. */
  lemma AttentionBelowBound(m: Model, linear: bool, includeHc: bool, tp: nat, w: Widths, l: nat)
    requires tp > 0
    ensures AttentionBytes(m, linear, includeHc, tp, w, l) <= AttentionBytes(m, linear, includeHc, tp, map[], l)
  {
    LayerBelowBound(m, linear, tp, w, l);
    AlignedLe(m, LayerBytes(m, linear, tp, w, l), LayerBytes(m, linear, tp, map[], l), includeHc);
  }

  // ---- the whole region -----------------------------------------------------

  /** packed_bytes: out rows of whole blocks, or a ValueError. */
  function UniformBytes(rows: nat, cols: nat, t: nat): Option<nat>
    requires KQuant(t)
  {
    if cols % BlockOf(t).elems != 0 then None else Some(rows * (cols / BlockOf(t).elems) * BlockOf(t).bytes)
  }

  predicate Servable(q: Weights) {
    q.Uniform? ==> KQuant(q.ggufType)
  }

  /** A feed-forward projection: the uniform type, or Q8_0 for a mixed checkpoint. */
  function FfnBytes(q: Weights, hidden: nat, inter: nat, down: bool): Option<nat>
    requires Servable(q)
  {
    var t := if q.Generic? then Q8_0 else q.ggufType;
    if down then UniformBytes(hidden, inter, t) else UniformBytes(inter, hidden, t)
  }

  /** The sizes that do not depend on the attention arm. */
  datatype Ffn = Ffn(gateUp: nat, down: nat)

  function FfnOf(q: Weights, hidden: nat, inter: nat): Option<Ffn>
    requires Servable(q)
  {
    var a, b := FfnBytes(q, hidden, inter, false), FfnBytes(q, hidden, inter, true);
    if a.None? || b.None? then None else Some(Ffn(a.value, b.value))
  }

  predicate IsMoe(m: Model, l: nat) {
    l >= m.firstDense && (l - m.firstDense) % Max(1, m.moeFreq) == 0
  }

  predicate IsLinear(m: Model, l: nat) {
    l < |m.linear| && m.linear[l]
  }

  function SharedBytes(m: Model, f: Ffn, tp: nat): nat
    requires tp > 0
  {
    2 * (Share(f.gateUp, tp) * m.sharedExperts) + Share(f.down, tp) * m.sharedExperts
  }

  function GatingBytes(m: Model): nat {
    m.hidden * m.experts * m.gatingBytes + m.experts * 4
  }

  /** What hidden layer l pins beside its attention slots. */
  function LayerOther(m: Model, shared: Ffn, dense: Ffn, tp: nat, l: nat): nat
    requires tp > 0
  {
    2 * m.hidden * 2
    + if IsMoe(m, l) then GatingBytes(m) + SharedBytes(m, shared, tp)
      else if l < m.firstDense then 2 * Share(dense.gateUp, tp) + Share(dense.down, tp)
      else 0
  }

  /** Everything hidden layer l pins. */
  function LayerTotal(m: Model, shared: Ffn, dense: Ffn, tp: nat, w: Widths, l: nat): nat
    requires tp > 0
  {
    AttentionBytes(m, IsLinear(m, l), true, tp, w, l) + LayerOther(m, shared, dense, tp, l)
  }

  /** What one MTP block pins beside its attention slots. */
  function MtpOther(m: Model, shared: Ffn, tp: nat): nat
    requires tp > 0
  {
    2 * m.hidden * 2 + GatingBytes(m) + SharedBytes(m, shared, tp)
    + m.hidden * 2 + Share(m.hidden * 2 * m.hidden * 2, tp) + m.hidden * 2 + m.hidden * 2
  }

  /** Everything one MTP block pins; its attention is never linear and carries no hc tensors. */
  function MtpTotal(m: Model, shared: Ffn, tp: nat, w: Widths, l: nat): nat
    requires tp > 0
  {
    AttentionBytes(m, false, false, tp, w, l) + MtpOther(m, shared, tp)
  }

  function Layers(m: Model, shared: Ffn, dense: Ffn, tp: nat, w: Widths, n: nat): nat
    requires tp > 0
  {
    if n == 0 then 0 else Layers(m, shared, dense, tp, w, n - 1) + LayerTotal(m, shared, dense, tp, w, n - 1)
  }

  /** The layer number of MTP block i: they follow the hidden layers. */
  function MtpLayer(m: Model, i: nat): nat {
    m.layers + i
  }

  function Mtps(m: Model, shared: Ffn, tp: nat, w: Widths, n: nat): nat
    requires tp > 0
  {
    if n == 0 then 0 else Mtps(m, shared, tp, w, n - 1) + MtpTotal(m, shared, tp, w, MtpLayer(m, n - 1))
  }

  const ALIGN_BUDGET := 32 * 1024

  /** Embedding and output head, BF16 after upload. */
  function EndsBytes(m: Model, tp: nat): nat
    requires tp > 0
  {
    2 * Share(m.vocab * m.hidden * 2, tp)
  }

  function RegionBytes(m: Model, shared: Ffn, dense: Ffn, tp: nat, w: Widths): nat
    requires tp > 0
  {
    EndsBytes(m, tp) + Layers(m, shared, dense, tp, w, m.layers)
    + m.hidden * 2 + Mtps(m, shared, tp, w, m.mtpLayers) + ALIGN_BUDGET
  }

  /** pinned_region_layout's total; None where packed_bytes raises. */
  function Region(m: Model, q: Weights, tp: nat, w: Widths): Option<nat>
    requires tp > 0 && Servable(q)
  {
    var shared, dense := FfnOf(q, m.hidden, m.moeInt), FfnOf(q, m.hidden, m.denseInt);
    if shared.None? || dense.None? then None
    else Some(RegionBytes(m, shared.value, dense.value, tp, w))
  }

  lemma LayerTotalBelowBound(m: Model, shared: Ffn, dense: Ffn, tp: nat, w: Widths, l: nat)
    requires tp > 0
    ensures LayerTotal(m, shared, dense, tp, w, l) <= LayerTotal(m, shared, dense, tp, map[], l)
  {
    AttentionBelowBound(m, IsLinear(m, l), true, tp, w, l);
  }

  lemma MtpTotalBelowBound(m: Model, shared: Ffn, tp: nat, w: Widths, l: nat)
    requires tp > 0
    ensures MtpTotal(m, shared, tp, w, l) <= MtpTotal(m, shared, tp, map[], l)
  {
    AttentionBelowBound(m, false, false, tp, w, l);
  }

  lemma {:induction false} LayersBelowBound(m: Model, shared: Ffn, dense: Ffn, tp: nat, w: Widths, n: nat)
    requires tp > 0
    ensures Layers(m, shared, dense, tp, w, n) <= Layers(m, shared, dense, tp, map[], n)
  {
    if n > 0 {
      LayersBelowBound(m, shared, dense, tp, w, n - 1);
      LayerTotalBelowBound(m, shared, dense, tp, w, n - 1);
    }
  }

  lemma {:induction false} MtpsBelowBound(m: Model, shared: Ffn, tp: nat, w: Widths, n: nat)
    requires tp > 0
    ensures Mtps(m, shared, tp, w, n) <= Mtps(m, shared, tp, map[], n)
  {
    if n > 0 {
      var l := MtpLayer(m, n - 1);
      assert MtpTotal(m, shared, tp, w, l) <= MtpTotal(m, shared, tp, map[], l) by {
        MtpTotalBelowBound(m, shared, tp, w, l);
      }
      MtpsBelowBound(m, shared, tp, w, n - 1);
    }
  }

  /** For every model, TP degree and width scan, the checkpoint-exact region is at most the BF16 upper bound. */
  lemma ExactBelowBound(m: Model, q: Weights, tp: nat, w: Widths)
    requires tp > 0 && Servable(q)
    ensures var exact, bound := Region(m, q, tp, w), Region(m, q, tp, map[]);
      exact.Some? == bound.Some? && (exact.Some? ==> exact.value <= bound.value)
  {
    var shared, dense := FfnOf(q, m.hidden, m.moeInt), FfnOf(q, m.hidden, m.denseInt);
    if shared.Some? && dense.Some? {
      LayersBelowBound(m, shared.value, dense.value, tp, w, m.layers);
      MtpsBelowBound(m, shared.value, tp, w, m.mtpLayers);
    }
  }
}
