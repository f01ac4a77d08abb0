// The pinned region as tables: every slot of a linear and of an MLA layer with
// its rows and columns, and every component of the region with how often it
// occurs (python/autoconfig/gguf_meta.py). The formulas are proved equal to the
// sums over these tables.
module PinnedSlots {
  import opened IntMath
  import opened Options
  import opened PinnedRegion
  import opened PinnedLayout

  // ---- what a block is made of ----------------------------------------------------

  /** The bytes of a block by what is in them: packed quants, high bits, sub-block scales and minima, half floats. */
  lemma BlockAnatomy()
    ensures BlockOf(8) == Block(32 + 2, 32)                              // Q8_0: bytes, scale
    ensures BlockOf(10) == Block(256 / 4 + 16 + 2 + 2, 256)              // Q2_K: 2 bits, 16 nibble pairs, scale, min
    ensures BlockOf(11) == Block(256 / 4 + 256 / 8 + 12 + 2, 256)        // Q3_K: 2 bits and 1, 16 of six bits, scale
    ensures BlockOf(12) == Block(256 / 2 + 12 + 2 + 2, 256)              // Q4_K: 4 bits, 8 pairs of six, scale, min
    ensures BlockOf(13) == Block(256 / 2 + 256 / 8 + 12 + 2 + 2, 256)    // Q5_K: 4 bits and 1, the same
    ensures BlockOf(14) == Block(256 / 2 + 256 / 4 + 16 + 2, 256)        // Q6_K: 4 bits and 2, 16 bytes, scale
    ensures BlockOf(39) == Block(32 / 2 + 1, 32)                         // MXFP4: 4 bits, exponent
  {
  }

  /** These are the packed types, and a type's rank is its bytes for 256 elements. */
  lemma RankExactly(t: nat)
    ensures KQuant(t) <==> t == 8 || 10 <= t <= 14 || t == 39
    ensures KQuant(t) ==> Rank(t) * BlockOf(t).elems == 256 * BlockOf(t).bytes
  {
  }

  /**
   * A feed-forward network's sizes: gate and up have a row for every inner
   * dimension, down one for every hidden one, all in whole blocks of the uniform
   * type, or of Q8_0 for a mixed checkpoint; otherwise they cannot be laid out.
   */
  lemma FfnExactly(q: Weights, hidden: nat, inter: nat, h: nat, i: nat)
    requires Servable(q)
    requires var b := BlockOf(if q.Generic? then 8 else q.ggufType);
      h * b.elems <= hidden < (h + 1) * b.elems && i * b.elems <= inter < (i + 1) * b.elems
    ensures var b := BlockOf(if q.Generic? then 8 else q.ggufType);
      FfnOf(q, hidden, inter) ==
        if h * b.elems == hidden && i * b.elems == inter then Some(Ffn(inter * h * b.bytes, hidden * i * b.bytes))
        else None
  {
    var b := BlockOf(if q.Generic? then 8 else q.ggufType);
    DivModUnique(hidden, h, b.elems, hidden - h * b.elems);
    DivModUnique(inter, i, b.elems, inter - i * b.elems);
  }

  /** A slot of whole blocks takes them, row by row; any other slot two bytes an element. */
  lemma PackedExactly(w: Widths, s: Slot, rows: nat, cols: nat, blocks: nat)
    ensures s in w && KQuant(w[s]) && cols == blocks * BlockOf(w[s]).elems ==>
      Packed(w, s, rows, cols) == rows * blocks * BlockOf(w[s]).bytes
    ensures s !in w || !KQuant(w[s]) || cols % BlockOf(w[s]).elems != 0 ==> Packed(w, s, rows, cols) == 2 * rows * cols
  {
    if s in w && KQuant(w[s]) && cols == blocks * BlockOf(w[s]).elems {
      DivModUnique(cols, blocks, BlockOf(w[s]).elems, 0);
    }
  }

  // ---- the slots of a layer ---------------------------------------------------------

  /** A matrix at the checkpoint's width, or a vector or table of so many elements at 2 or 4 bytes each. */
  datatype Row = Matrix(component: Component, rows: nat, cols: nat) | Plain(elems: nat, width: nat)

  function RowSize(w: Widths, l: nat, r: Row): nat {
    match r
    case Matrix(c, rows, cols) => Packed(w, (l, c), rows, cols)
    case Plain(elems, width) => elems * width
  }

  function SizeOf(w: Widths, l: nat, table: seq<Row>): nat {
    if table == [] then 0 else RowSize(w, l, table[0]) + SizeOf(w, l, table[1..])
  }

  lemma {:induction false} SizeConcat(w: Widths, l: nat, a: seq<Row>, b: seq<Row>)
    ensures SizeOf(w, l, a + b) == SizeOf(w, l, a) + SizeOf(w, l, b)
    decreases |a|
  {
    if a == [] {
      assert a + b == b;
    } else {
      assert (a + b)[1..] == a[1..] + b;
      SizeConcat(w, l, a[1..], b);
    }
  }

  /** One rank's matrices of a linear layer: two are replicated, o_proj is cut by columns, the others by rows. */
  function LinearMatrices(m: Model, tp: nat): seq<Row>
    requires tp > 0
  {
    var channels, mine, heads := m.kdaHeads * m.kdaDim, m.kdaHeads * m.kdaDim / tp, m.kdaHeads / tp;
    [Matrix(KdaQ, mine, m.hidden), Matrix(KdaK, mine, m.hidden), Matrix(KdaV, mine, m.hidden),
     Matrix(KdaB, heads, m.hidden), Matrix(KdaFA, m.kdaDim, m.hidden), Matrix(KdaGA, m.kdaDim, m.hidden),
     Matrix(KdaFB, mine, m.kdaDim), Matrix(KdaGB, mine, m.kdaDim), Matrix(OProj, m.hidden, channels / tp)]
  }

  /** Three convolutions of kdaConv taps, A_log, dt_bias, and the replicated o_norm, all F32. */
  function LinearVectors(m: Model, tp: nat): seq<Row>
    requires tp > 0
  {
    var mine := m.kdaHeads * m.kdaDim / tp;
    [Plain(mine * m.kdaConv, 4), Plain(mine * m.kdaConv, 4), Plain(mine * m.kdaConv, 4),
     Plain(m.kdaHeads / tp, 4), Plain(mine, 4), Plain(m.kdaDim, 4)]
  }

  /** One rank's matrices of an MLA layer: q_b is cut by rows, o_proj by columns, the others are replicated. */
  function MlaMatrices(m: Model, tp: nat): seq<Row>
    requires tp > 0
  {
    [Matrix(QA, m.qLora, m.hidden), Matrix(QB, m.heads * (m.qkNope + m.qkRope) / tp, m.qLora),
     Matrix(KvA, m.kvLora + m.qkRope, m.hidden), Matrix(OProj, m.hidden, m.heads * m.vHead / tp),
     Matrix(IndexerWqB, m.indexHeads * m.indexDim, m.qLora), Matrix(IndexerWk, m.indexDim, m.hidden)]
  }

  /** Two norms and the combined kv_b at BF16; the indexer's norm weight and bias, its F32 weights, its compressor. */
  function MlaVectors(m: Model, tp: nat): seq<Row>
    requires tp > 0
  {
    [Plain(m.qLora, 2), Plain(m.kvLora, 2), Plain(m.heads * (m.qkNope + m.vHead) / tp * m.kvLora, 2),
     Plain(m.indexDim, 2), Plain(m.indexDim, 2), Plain(m.indexHeads * m.hidden, 4)]
    + if m.indexKpool <= 1 then [] else [Plain(m.indexDim * m.hidden, 2), Plain(m.indexKpool * m.indexDim, 4)]
  }

  /** Two sets of the hc tensors, F32: mixing rows over all streams, their bias, three scales. */
  function HcVectors(m: Model): seq<Row> {
    var streams := if m.hcMult > 1 then m.hcMult else 1;
    var mix := (2 + streams) * streams;
    [Plain(mix * (streams * m.hidden), 4), Plain(mix, 4), Plain(3, 4),
     Plain(mix * (streams * m.hidden), 4), Plain(mix, 4), Plain(3, 4)]
  }

  function LayerTable(m: Model, linear: bool, hc: bool, tp: nat): seq<Row>
    requires tp > 0
  {
    (if linear then LinearMatrices(m, tp) + LinearVectors(m, tp) else MlaMatrices(m, tp) + MlaVectors(m, tp))
    + if hc then HcVectors(m) else []
  }

  lemma SumOne(w: Widths, l: nat, a: Row, rest: seq<Row>)
    ensures SizeOf(w, l, [a] + rest) == RowSize(w, l, a) + SizeOf(w, l, rest)
    ensures rest == [] ==> [a] + rest == [a] && SizeOf(w, l, rest) == 0
  {
    assert ([a] + rest)[1..] == rest;
  }

  lemma Sum6(w: Widths, l: nat, a: Row, b: Row, c: Row, d: Row, e: Row, f: Row)
    ensures SizeOf(w, l, [a, b, c, d, e, f])
      == RowSize(w, l, a) + RowSize(w, l, b) + RowSize(w, l, c) + RowSize(w, l, d) + RowSize(w, l, e) + RowSize(w, l, f)
  {
    Sum3(w, l, a, b, c);
    Sum3(w, l, d, e, f);
    SizeConcat(w, l, [a, b, c], [d, e, f]);
    assert [a, b, c] + [d, e, f] == [a, b, c, d, e, f];
  }

  lemma Sum3(w: Widths, l: nat, a: Row, b: Row, c: Row)
    ensures SizeOf(w, l, [a, b, c]) == RowSize(w, l, a) + RowSize(w, l, b) + RowSize(w, l, c)
  {
    assert [a] + [b, c] == [a, b, c] && [b] + [c] == [b, c];
    SumOne(w, l, a, [b, c]);
    SumOne(w, l, b, [c]);
    SumOne(w, l, c, []);
  }

  lemma Sum2(w: Widths, l: nat, a: Row, b: Row)
    ensures SizeOf(w, l, [a, b]) == RowSize(w, l, a) + RowSize(w, l, b)
  {
    assert [a] + [b] == [a, b];
    SumOne(w, l, a, [b]);
    SumOne(w, l, b, []);
  }

  lemma LinearMatricesSize(m: Model, tp: nat, w: Widths, l: nat)
    requires tp > 0
    ensures LinearBytes(m, tp, w, l) - LinearFixed(m, Share(m.kdaHeads * m.kdaDim, tp), Share(m.kdaHeads, tp))
      + OProjBytes(m, true, tp, w, l) == SizeOf(w, l, LinearMatrices(m, tp))
  {
    var t := LinearMatrices(m, tp);
    Sum6(w, l, t[0], t[1], t[2], t[3], t[4], t[5]);
    Sum3(w, l, t[6], t[7], t[8]);
    SizeConcat(w, l, t[..6], t[6..]);
    assert t[..6] == [t[0], t[1], t[2], t[3], t[4], t[5]] && t[6..] == [t[6], t[7], t[8]] && t == t[..6] + t[6..];
  }

  lemma LinearVectorsSize(m: Model, tp: nat, w: Widths, l: nat)
    requires tp > 0
    ensures LinearFixed(m, Share(m.kdaHeads * m.kdaDim, tp), Share(m.kdaHeads, tp))
      == SizeOf(w, l, LinearVectors(m, tp))
  {
    var t := LinearVectors(m, tp);
    Sum6(w, l, t[0], t[1], t[2], t[3], t[4], t[5]);
    assert t == [t[0], t[1], t[2], t[3], t[4], t[5]];
    var mine := Share(m.kdaHeads * m.kdaDim, tp);
    assert 3 * mine * m.kdaConv * 4 == 3 * (mine * m.kdaConv * 4);
  }

  lemma MlaMatricesSize(m: Model, tp: nat, w: Widths, l: nat)
    requires tp > 0
    ensures MlaBytes(m, tp, w, l) - MlaFixed(m, Share(m.heads * (m.qkNope + m.vHead), tp))
      + OProjBytes(m, false, tp, w, l) == SizeOf(w, l, MlaMatrices(m, tp))
  {
    var t := MlaMatrices(m, tp);
    Sum6(w, l, t[0], t[1], t[2], t[3], t[4], t[5]);
    assert t == [t[0], t[1], t[2], t[3], t[4], t[5]];
  }

  lemma MlaVectorsSize(m: Model, tp: nat, w: Widths, l: nat)
    requires tp > 0
    ensures MlaFixed(m, Share(m.heads * (m.qkNope + m.vHead), tp)) == SizeOf(w, l, MlaVectors(m, tp))
  {
    var t := MlaVectors(m, tp);
    Sum6(w, l, t[0], t[1], t[2], t[3], t[4], t[5]);
    assert t[..6] == [t[0], t[1], t[2], t[3], t[4], t[5]] && t == t[..6] + t[6..];
    SizeConcat(w, l, t[..6], t[6..]);
    if m.indexKpool > 1 {
      Sum2(w, l, t[6], t[7]);
      assert t[6..] == [t[6], t[7]];
    } else {
      assert t[6..] == [];
    }
  }

  lemma HcSize(m: Model, w: Widths, l: nat)
    ensures HcBytes(m) == SizeOf(w, l, HcVectors(m))
  {
    var t := HcVectors(m);
    Sum6(w, l, t[0], t[1], t[2], t[3], t[4], t[5]);
    assert t == [t[0], t[1], t[2], t[3], t[4], t[5]];
  }

  /** n rounded up to a multiple of sixteen. */
  predicate Rounded16(r: nat, n: nat) {
    r % 16 == 0 && n <= r < n + 16
  }

  lemma SlotsBySum(m: Model, linear: bool, tp: nat, w: Widths, l: nat)
    requires tp > 0
    ensures LayerBytes(m, linear, tp, w, l)
      == if linear then SizeOf(w, l, LinearMatrices(m, tp)) + SizeOf(w, l, LinearVectors(m, tp))
         else SizeOf(w, l, MlaMatrices(m, tp)) + SizeOf(w, l, MlaVectors(m, tp))
  {
    if linear {
      LinearMatricesSize(m, tp, w, l);
      LinearVectorsSize(m, tp, w, l);
    } else {
      MlaMatricesSize(m, tp, w, l);
      MlaVectorsSize(m, tp, w, l);
    }
  }

  /** One layer's attention is the sum over its table, rounded up to sixteen bytes. */
  lemma AttentionBySlots(m: Model, linear: bool, hc: bool, tp: nat, w: Widths, l: nat)
    requires tp > 0
    ensures Rounded16(AttentionBytes(m, linear, hc, tp, w, l), SizeOf(w, l, LayerTable(m, linear, hc, tp)))
  {
    var slots := LayerBytes(m, linear, tp, w, l);
    var extra := if hc then HcBytes(m) else 0;
    assert SizeOf(w, l, LayerTable(m, linear, hc, tp)) == slots + extra by {
      TableSize(m, linear, hc, tp, w, l);
    }
    RoundsUp(slots + extra);
  }

  lemma RoundsUp(n: nat)
    ensures Rounded16(Align16(n), n)
  {
  }

  lemma TableSize(m: Model, linear: bool, hc: bool, tp: nat, w: Widths, l: nat)
    requires tp > 0
    ensures SizeOf(w, l, LayerTable(m, linear, hc, tp))
      == LayerBytes(m, linear, tp, w, l) + if hc then HcBytes(m) else 0
  {
    var a := if linear then LinearMatrices(m, tp) else MlaMatrices(m, tp);
    var b := if linear then LinearVectors(m, tp) else MlaVectors(m, tp);
    var c := if hc then HcVectors(m) else [];
    assert LayerTable(m, linear, hc, tp) == a + b + c;
    assert SizeOf(w, l, a) + SizeOf(w, l, b) == LayerBytes(m, linear, tp, w, l) by {
      SlotsBySum(m, linear, tp, w, l);
    }
    assert SizeOf(w, l, c) == if hc then HcBytes(m) else 0 by {
      HcSize(m, w, l);
    }
    SizeConcat(w, l, a, b);
    SizeConcat(w, l, a + b, c);
  }

  // ---- the components of the region -------------------------------------------------

  /** Hidden layers below n with experts. */
  function MoeLayers(m: Model, n: nat): nat {
    if n == 0 then 0 else MoeLayers(m, n - 1) + if IsMoe(m, n - 1) then 1 else 0
  }

  /** From the first one on they come at every moeFreq-th layer. */
  lemma {:induction false} MoeLayersExactly(m: Model, n: nat)
    ensures var freq: nat := if m.moeFreq > 1 then m.moeFreq else 1;
      MoeLayers(m, n) == if n <= m.firstDense then 0 else CeilDiv(n - m.firstDense, freq)
    decreases n
  {
    if n > 0 {
      MoeLayersExactly(m, n - 1);
      if n > m.firstDense {
        var freq: nat, d := if m.moeFreq > 1 then m.moeFreq else 1, n - 1 - m.firstDense;
        NextCeil(d, freq);
      }
    }
  }

  lemma NextCeil(d: nat, c: nat)
    requires c > 0
    ensures CeilDiv(d + 1, c) == CeilDiv(d, c) + if d % c == 0 then 1 else 0
  {
    var q, r := d / c, d % c;
    assert d == q * c + r;
    NextCeilAt(q, r, c, d);
  }

  lemma NextCeilAt(q: nat, r: nat, c: nat, d: nat)
    requires r < c && d == q * c + r
    ensures CeilDiv(d + 1, c) == CeilDiv(d, c) + if r == 0 then 1 else 0
  {
    CeilDivMultiple(q, r, c);
    if r + 1 < c {
      CeilDivMultiple(q, r + 1, c);
    } else {
      assert d + 1 == (q + 1) * c + 0;
      CeilDivMultiple(q + 1, 0, c);
    }
  }

  /** How often a component with one size per layer occurs, times that size. */
  function Times(n: nat, size: nat): nat {
    n * size
  }

  lemma TimesNext(n: nat, size: nat)
    ensures Times(n + 1, size) == Times(n, size) + size && Times(0, size) == 0
  {
  }

  /** Dense layers below n, all of them in front. */
  function DenseLayers(m: Model, n: nat): nat {
    if n <= m.firstDense then n else m.firstDense
  }

  function HiddenAttention(m: Model, tp: nat, w: Widths, n: nat): nat
    requires tp > 0
  {
    if n == 0 then 0
    else
      var l := n - 1;
      HiddenAttention(m, tp, w, l) + AttentionBytes(m, l < |m.linear| && m.linear[l], true, tp, w, l)
  }

  function MtpAttention(m: Model, tp: nat, w: Widths, n: nat): nat
    requires tp > 0
  {
    if n == 0 then 0 else MtpAttention(m, tp, w, n - 1) + AttentionBytes(m, false, false, tp, w, MtpLayer(m, n - 1))
  }

  /** In which hidden layers a component occurs, and how large it is there. */
  datatype Rate = Everywhere(size: nat) | WhereExperts(size: nat) | WhereDense(size: nat) | Nowhere

  function HiddenRate(m: Model, shared: Ffn, dense: Ffn, tp: nat, p: Part): Rate
    requires tp > 0
  {
    match p
    case LayerNorm => Everywhere(4 * m.hidden)
    case GatingWeight => WhereExperts(m.hidden * m.experts * m.gatingBytes)
    case GatingBias => WhereExperts(4 * m.experts)
    case SharedGate => WhereExperts(shared.gateUp / tp * m.sharedExperts)
    case SharedUp => WhereExperts(shared.gateUp / tp * m.sharedExperts)
    case SharedDown => WhereExperts(shared.down / tp * m.sharedExperts)
    case DenseGate => WhereDense(dense.gateUp / tp)
    case DenseUp => WhereDense(dense.gateUp / tp)
    case DenseDown => WhereDense(dense.down / tp)
    case _ => Nowhere
  }

  /** What every MTP block holds of a component beside the attention. */
  function MtpSize(m: Model, shared: Ffn, tp: nat, p: Part): nat
    requires tp > 0
  {
    match p
    case LayerNorm => 4 * m.hidden
    case GatingWeight => m.hidden * m.experts * m.gatingBytes
    case GatingBias => 4 * m.experts
    case SharedGate => shared.gateUp / tp * m.sharedExperts
    case SharedUp => shared.gateUp / tp * m.sharedExperts
    case SharedDown => shared.down / tp * m.sharedExperts
    case MtpHeadNorm => 2 * m.hidden
    case MtpENorm => 2 * m.hidden
    case MtpHNorm => 2 * m.hidden
    case MtpEhProj => m.hidden * 2 * m.hidden * 2 / tp
    case _ => 0
  }

  lemma LayerPartRate(m: Model, shared: Ffn, dense: Ffn, tp: nat, w: Widths, l: nat, p: Part)
    requires tp > 0 && p != Attention
    ensures LayerPart(m, shared, dense, tp, w, l, p) ==
      match HiddenRate(m, shared, dense, tp, p)
      case Everywhere(size) => size
      case WhereExperts(size) => if IsMoe(m, l) then size else 0
      case WhereDense(size) => if l < m.firstDense then size else 0
      case Nowhere => 0
  {
  }

  lemma {:induction false} LayersSumEverywhere(m: Model, shared: Ffn, dense: Ffn, tp: nat, w: Widths, n: nat, p: Part,
                                               size: nat)
    requires tp > 0 && forall l: nat :: LayerPart(m, shared, dense, tp, w, l, p) == size
    ensures LayerParts(m, shared, dense, tp, w, n, p) == Times(n, size)
    decreases n
  {
    TimesNext(if n > 0 then n - 1 else 0, size);
    if n > 0 {
      LayersSumEverywhere(m, shared, dense, tp, w, n - 1, p, size);
    }
  }

  lemma {:induction false} LayersSumExperts(m: Model, shared: Ffn, dense: Ffn, tp: nat, w: Widths, n: nat, p: Part,
                                            size: nat)
    requires tp > 0 && forall l: nat :: LayerPart(m, shared, dense, tp, w, l, p) == if IsMoe(m, l) then size else 0
    ensures LayerParts(m, shared, dense, tp, w, n, p) == Times(MoeLayers(m, n), size)
    decreases n
  {
    TimesNext(if n > 0 then MoeLayers(m, n - 1) else 0, size);
    if n > 0 {
      LayersSumExperts(m, shared, dense, tp, w, n - 1, p, size);
    }
  }

  lemma {:induction false} LayersSumDense(m: Model, shared: Ffn, dense: Ffn, tp: nat, w: Widths, n: nat, p: Part,
                                          size: nat)
    requires tp > 0 && forall l: nat :: LayerPart(m, shared, dense, tp, w, l, p) == if l < m.firstDense then size else 0
    ensures LayerParts(m, shared, dense, tp, w, n, p) == Times(DenseLayers(m, n), size)
    decreases n
  {
    TimesNext(if n > 0 then DenseLayers(m, n - 1) else 0, size);
    if n > 0 {
      LayersSumDense(m, shared, dense, tp, w, n - 1, p, size);
    }
  }

  /** What the hidden layers hold of a component: its size times the layers that have it. */
  lemma LayerPartsExactly(m: Model, shared: Ffn, dense: Ffn, tp: nat, w: Widths, n: nat, p: Part)
    requires tp > 0 && p != Attention
    ensures LayerParts(m, shared, dense, tp, w, n, p) ==
      match HiddenRate(m, shared, dense, tp, p)
      case Everywhere(size) => Times(n, size)
      case WhereExperts(size) => Times(MoeLayers(m, n), size)
      case WhereDense(size) => Times(DenseLayers(m, n), size)
      case Nowhere => 0
  {
    var rate := HiddenRate(m, shared, dense, tp, p);
    forall l: nat ensures LayerPart(m, shared, dense, tp, w, l, p) ==
      match rate
      case Everywhere(size) => size
      case WhereExperts(size) => if IsMoe(m, l) then size else 0
      case WhereDense(size) => if l < m.firstDense then size else 0
      case Nowhere => 0
    {
      LayerPartRate(m, shared, dense, tp, w, l, p);
    }
    match rate
    case Everywhere(size) => LayersSumEverywhere(m, shared, dense, tp, w, n, p, size);
    case WhereExperts(size) => LayersSumExperts(m, shared, dense, tp, w, n, p, size);
    case WhereDense(size) => LayersSumDense(m, shared, dense, tp, w, n, p, size);
    case Nowhere =>
      LayersSumEverywhere(m, shared, dense, tp, w, n, p, 0);
      NoneTimes(n);
  }

  lemma MtpPartSize(m: Model, shared: Ffn, tp: nat, w: Widths, l: nat, p: Part)
    requires tp > 0 && p != Attention
    ensures MtpPart(m, shared, tp, w, l, p) == MtpSize(m, shared, tp, p)
  {
  }

  lemma {:induction false} MtpsSum(m: Model, shared: Ffn, tp: nat, w: Widths, n: nat, p: Part, size: nat)
    requires tp > 0 && forall l: nat :: MtpPart(m, shared, tp, w, l, p) == size
    ensures MtpParts(m, shared, tp, w, n, p) == Times(n, size)
    decreases n
  {
    TimesNext(if n > 0 then n - 1 else 0, size);
    if n > 0 {
      MtpsSum(m, shared, tp, w, n - 1, p, size);
    }
  }

  lemma MtpPartsExactly(m: Model, shared: Ffn, tp: nat, w: Widths, n: nat, p: Part)
    requires tp > 0 && p != Attention
    ensures MtpParts(m, shared, tp, w, n, p) == Times(n, MtpSize(m, shared, tp, p))
  {
    var size := MtpSize(m, shared, tp, p);
    forall l: nat ensures MtpPart(m, shared, tp, w, l, p) == size {
      MtpPartSize(m, shared, tp, w, l, p);
    }
    MtpsSum(m, shared, tp, w, n, p, size);
  }

  lemma AttentionPart(m: Model, shared: Ffn, dense: Ffn, tp: nat, w: Widths, l: nat)
    requires tp > 0
    ensures LayerPart(m, shared, dense, tp, w, l, Attention) == AttentionBytes(m, IsLinear(m, l), true, tp, w, l)
    ensures MtpPart(m, shared, tp, w, l, Attention) == AttentionBytes(m, false, false, tp, w, l)
  {
  }

  lemma {:induction false} HiddenSum(m: Model, shared: Ffn, dense: Ffn, tp: nat, w: Widths, n: nat, p: Part)
    requires tp > 0
    requires forall l: nat ::
      LayerPart(m, shared, dense, tp, w, l, p) == AttentionBytes(m, IsLinear(m, l), true, tp, w, l)
    ensures LayerParts(m, shared, dense, tp, w, n, p) == HiddenAttention(m, tp, w, n)
    decreases n
  {
    if n > 0 {
      HiddenSum(m, shared, dense, tp, w, n - 1, p);
    }
  }

  lemma {:induction false} MtpSum(m: Model, shared: Ffn, tp: nat, w: Widths, n: nat, p: Part)
    requires tp > 0
    requires forall l: nat :: MtpPart(m, shared, tp, w, l, p) == AttentionBytes(m, false, false, tp, w, l)
    ensures MtpParts(m, shared, tp, w, n, p) == MtpAttention(m, tp, w, n)
    decreases n
  {
    if n > 0 {
      MtpSum(m, shared, tp, w, n - 1, p);
    }
  }

  /** What the region holds of the attention: every layer's, and every MTP block's. */
  lemma AttentionExactly(m: Model, shared: Ffn, dense: Ffn, tp: nat, w: Widths)
    requires tp > 0
    ensures PartOf(m, shared, dense, tp, w, Attention)
      == HiddenAttention(m, tp, w, m.layers) + MtpAttention(m, tp, w, m.mtpLayers)
    ensures forall i: nat :: MtpLayer(m, i) == m.layers + i
  {
    forall l: nat
      ensures LayerPart(m, shared, dense, tp, w, l, Attention) == AttentionBytes(m, IsLinear(m, l), true, tp, w, l)
      ensures MtpPart(m, shared, tp, w, l, Attention) == AttentionBytes(m, false, false, tp, w, l)
    {
      AttentionPart(m, shared, dense, tp, w, l);
    }
    HiddenSum(m, shared, dense, tp, w, m.layers, Attention);
    MtpSum(m, shared, tp, w, m.mtpLayers, Attention);
  }

  /** The components that occur once: embedding and output head, sharded, and the final norm. */
  lemma EndsExactly(m: Model, shared: Ffn, dense: Ffn, tp: nat, w: Widths)
    requires tp > 0
    ensures PartOf(m, shared, dense, tp, w, Embedding) == m.vocab * m.hidden * 2 / tp
    ensures PartOf(m, shared, dense, tp, w, OutputHead) == m.vocab * m.hidden * 2 / tp
    ensures PartOf(m, shared, dense, tp, w, FinalNorm) == 2 * m.hidden
  {
    NothingElse(m, shared, dense, tp, w, Embedding);
    NothingElse(m, shared, dense, tp, w, OutputHead);
    NothingElse(m, shared, dense, tp, w, FinalNorm);
  }

  lemma NothingElse(m: Model, shared: Ffn, dense: Ffn, tp: nat, w: Widths, p: Part)
    requires tp > 0 && p in {Embedding, OutputHead, FinalNorm}
    ensures LayerParts(m, shared, dense, tp, w, m.layers, p) == 0 == MtpParts(m, shared, tp, w, m.mtpLayers, p)
  {
    LayerPartsExactly(m, shared, dense, tp, w, m.layers, p);
    MtpPartsExactly(m, shared, tp, w, m.mtpLayers, p);
    assert HiddenRate(m, shared, dense, tp, p).Nowhere? && MtpSize(m, shared, tp, p) == 0;
    NoneTimes(m.mtpLayers);
  }

  lemma NoneTimes(n: nat)
    ensures Times(n, 0) == 0
  {
  }

  /** Every other component: its rate over the hidden layers, and its size in each MTP block. */
  lemma PartExactly(m: Model, shared: Ffn, dense: Ffn, tp: nat, w: Widths, p: Part)
    requires tp > 0 && p !in {Embedding, OutputHead, FinalNorm, Attention}
    ensures PartOf(m, shared, dense, tp, w, p) == Times(m.mtpLayers, MtpSize(m, shared, tp, p)) +
      match HiddenRate(m, shared, dense, tp, p)
      case Everywhere(size) => Times(m.layers, size)
      case WhereExperts(size) => Times(MoeLayers(m, m.layers), size)
      case WhereDense(size) => Times(DenseLayers(m, m.layers), size)
      case Nowhere => 0
  {
    LayerPartsExactly(m, shared, dense, tp, w, m.layers, p);
    MtpPartsExactly(m, shared, tp, w, m.mtpLayers, p);
  }
}
