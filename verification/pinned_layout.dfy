// pinned_region_layout as it runs (python/autoconfig/gguf_meta.py): slots are
// added up by component name while the layers are walked, and summed at the end.
module PinnedLayout {
  import opened Options
  import opened PinnedRegion

  /** The components by which the region is reported. */
  datatype Part =
    | Embedding | OutputHead | Attention | LayerNorm | GatingWeight | GatingBias
    | SharedGate | SharedUp | SharedDown | DenseGate | DenseUp | DenseDown
    | FinalNorm | MtpHeadNorm | MtpEhProj | MtpENorm | MtpHNorm

  type ByName = map<Part, nat>

  /** by.get(component, 0) */
  function At<K>(sums: map<K, nat>, component: K): nat {
    if component in sums then sums[component] else 0
  }

  /** emit(component, size) */
  function Emit<K>(sums: map<K, nat>, component: K, size: nat): map<K, nat> {
    sums[component := At(sums, component) + size]
  }

  /** sum(by.values()) */
  ghost function Total<K>(sums: map<K, nat>): nat
    decreases |sums|
  {
    if sums == map[] then 0
    else
      var k :| k in sums;
      sums[k] + Total(sums - {k})
  }

  /** The sum does not depend on the order in which the names are visited. */
  lemma {:induction false} TotalWithout<K>(sums: map<K, nat>, k: K)
    requires k in sums
    ensures Total(sums) == sums[k] + Total(sums - {k})
    decreases |sums|
  {
    var first :| first in sums && Total(sums) == sums[first] + Total(sums - {first});
    if first != k {
      TotalWithout(sums - {first}, k);
      TotalWithout(sums - {k}, first);
      assert sums - {first} - {k} == sums - {k} - {first};
    }
  }

  /** Emitting adds its size to the sum and to its own component only. */
  lemma EmitAdds<K>(sums: map<K, nat>, component: K, size: nat)
    ensures Total(Emit(sums, component, size)) == Total(sums) + size
  {
    var more := Emit(sums, component, size);
    TotalWithout(more, component);
    if component in sums {
      TotalWithout(sums, component);
      assert more - {component} == sums - {component};
    } else {
      assert more - {component} == sums;
    }
  }

  method SumValues<K>(sums: map<K, nat>) returns (total: nat)
    ensures total == Total(sums)
  {
    total := 0;
    var rest := sums;
    while rest != map[]
      invariant total + Total(rest) == Total(sums)
      decreases |rest|
    {
      var k :| k in rest;
      TotalWithout(rest, k);
      total := total + rest[k];
      rest := rest - {k};
    }
  }

  /** emit: its size goes to the sum and to its own component. */
  method Add<K>(sums: map<K, nat>, component: K, size: nat) returns (more: map<K, nat>)
    ensures more == Emit(sums, component, size) && Total(more) == Total(sums) + size
    ensures forall p :: At(more, p) == At(sums, p) + if p == component then size else 0
  {
    EmitAdds(sums, component, size);
    more := sums[component := At(sums, component) + size];
  }

  // ---- what one layer emits ---------------------------------------------------------

  function GatingPart(m: Model, p: Part): nat {
    if p == GatingWeight then m.hidden * m.experts * m.gatingBytes
    else if p == GatingBias then m.experts * 4
    else 0
  }

  function SharedPart(m: Model, shared: Ffn, tp: nat, p: Part): nat
    requires tp > 0
  {
    if p == SharedGate || p == SharedUp then Share(shared.gateUp, tp) * m.sharedExperts
    else if p == SharedDown then Share(shared.down, tp) * m.sharedExperts
    else 0
  }

  function DensePart(dense: Ffn, tp: nat, p: Part): nat
    requires tp > 0
  {
    if p == DenseGate || p == DenseUp then Share(dense.gateUp, tp)
    else if p == DenseDown then Share(dense.down, tp)
    else 0
  }

  function NormPart(m: Model, attention: nat, p: Part): nat {
    if p == Attention then attention else if p == LayerNorm then 2 * m.hidden * 2 else 0
  }

  function LayerPart(m: Model, shared: Ffn, dense: Ffn, tp: nat, w: Widths, l: nat, p: Part): nat
    requires tp > 0
  {
    NormPart(m, AttentionBytes(m, IsLinear(m, l), true, tp, w, l), p)
    + if IsMoe(m, l) then GatingPart(m, p) + SharedPart(m, shared, tp, p)
      else if l < m.firstDense then DensePart(dense, tp, p)
      else 0
  }

  function HeadPart(m: Model, tp: nat, p: Part): nat
    requires tp > 0
  {
    if p == MtpHeadNorm || p == MtpENorm || p == MtpHNorm then m.hidden * 2
    else if p == MtpEhProj then Share(m.hidden * 2 * m.hidden * 2, tp)
    else 0
  }

  function MtpPart(m: Model, shared: Ffn, tp: nat, w: Widths, l: nat, p: Part): nat
    requires tp > 0
  {
    NormPart(m, AttentionBytes(m, false, false, tp, w, l), p)
    + GatingPart(m, p) + SharedPart(m, shared, tp, p) + HeadPart(m, tp, p)
  }

  method AddNorm(m: Model, attention: nat, sums: ByName) returns (more: ByName)
    ensures Total(more) == Total(sums) + attention + 2 * m.hidden * 2
    ensures forall p :: At(more, p) == At(sums, p) + NormPart(m, attention, p)
  {
    more := Add(sums, Attention, attention);
    more := Add(more, LayerNorm, 2 * m.hidden * 2);
  }

  method AddGating(m: Model, sums: ByName) returns (more: ByName)
    ensures Total(more) == Total(sums) + GatingBytes(m)
    ensures forall p :: At(more, p) == At(sums, p) + GatingPart(m, p)
  {
    more := Add(sums, GatingWeight, m.hidden * m.experts * m.gatingBytes);
    more := Add(more, GatingBias, m.experts * 4);
  }

  method AddShared(m: Model, shared: Ffn, tp: nat, sums: ByName) returns (more: ByName)
    requires tp > 0
    ensures Total(more) == Total(sums) + SharedBytes(m, shared, tp)
    ensures forall p :: At(more, p) == At(sums, p) + SharedPart(m, shared, tp, p)
  {
    more := Add(sums, SharedGate, Share(shared.gateUp, tp) * m.sharedExperts);
    more := Add(more, SharedUp, Share(shared.gateUp, tp) * m.sharedExperts);
    more := Add(more, SharedDown, Share(shared.down, tp) * m.sharedExperts);
  }

  method AddDense(dense: Ffn, tp: nat, sums: ByName) returns (more: ByName)
    requires tp > 0
    ensures Total(more) == Total(sums) + 2 * Share(dense.gateUp, tp) + Share(dense.down, tp)
    ensures forall p :: At(more, p) == At(sums, p) + DensePart(dense, tp, p)
  {
    more := Add(sums, DenseGate, Share(dense.gateUp, tp));
    more := Add(more, DenseUp, Share(dense.gateUp, tp));
    more := Add(more, DenseDown, Share(dense.down, tp));
  }

  /** The body of the loop over the hidden layers. */
  method AddLayer(m: Model, shared: Ffn, dense: Ffn, tp: nat, w: Widths, l: nat, sums: ByName) returns (more: ByName)
    requires tp > 0
    ensures Total(more) == Total(sums) + LayerTotal(m, shared, dense, tp, w, l)
    ensures forall p :: At(more, p) == At(sums, p) + LayerPart(m, shared, dense, tp, w, l, p)
  {
    more := AddNorm(m, AttentionBytes(m, IsLinear(m, l), true, tp, w, l), sums);
    if IsMoe(m, l) {
      more := AddGating(m, more);
      more := AddShared(m, shared, tp, more);
    } else if l < m.firstDense {
      more := AddDense(dense, tp, more);
    }
  }

  /** The body of the loop over the MTP blocks. */
  method AddMtp(m: Model, shared: Ffn, tp: nat, w: Widths, l: nat, sums: ByName) returns (more: ByName)
    requires tp > 0
    ensures Total(more) == Total(sums) + MtpTotal(m, shared, tp, w, l)
    ensures forall p :: At(more, p) == At(sums, p) + MtpPart(m, shared, tp, w, l, p)
  {
    more := AddNorm(m, AttentionBytes(m, false, false, tp, w, l), sums);
    more := AddGating(m, more);
    more := AddShared(m, shared, tp, more);
    more := AddMtpHead(m, tp, more);
  }

  method AddMtpHead(m: Model, tp: nat, sums: ByName) returns (more: ByName)
    requires tp > 0
    ensures Total(more)
      == Total(sums) + m.hidden * 2 + Share(m.hidden * 2 * m.hidden * 2, tp) + m.hidden * 2 + m.hidden * 2
    ensures forall p :: At(more, p) == At(sums, p) + HeadPart(m, tp, p)
  {
    more := Add(sums, MtpHeadNorm, m.hidden * 2);
    more := Add(more, MtpEhProj, Share(m.hidden * 2 * m.hidden * 2, tp));
    more := Add(more, MtpENorm, m.hidden * 2);
    more := Add(more, MtpHNorm, m.hidden * 2);
  }

  // ---- all layers -------------------------------------------------------------------

  function LayerParts(m: Model, shared: Ffn, dense: Ffn, tp: nat, w: Widths, n: nat, p: Part): nat
    requires tp > 0
  {
    if n == 0 then 0
    else LayerParts(m, shared, dense, tp, w, n - 1, p) + LayerPart(m, shared, dense, tp, w, n - 1, p)
  }

  function MtpParts(m: Model, shared: Ffn, tp: nat, w: Widths, n: nat, p: Part): nat
    requires tp > 0
  {
    if n == 0 then 0 else MtpParts(m, shared, tp, w, n - 1, p) + MtpPart(m, shared, tp, w, MtpLayer(m, n - 1), p)
  }

  method AddLayers(m: Model, shared: Ffn, dense: Ffn, tp: nat, w: Widths, sums: ByName) returns (more: ByName)
    requires tp > 0
    ensures Total(more) == Total(sums) + Layers(m, shared, dense, tp, w, m.layers)
    ensures forall p :: At(more, p) == At(sums, p) + LayerParts(m, shared, dense, tp, w, m.layers, p)
  {
    more := sums;
    for l := 0 to m.layers
      invariant Total(more) == Total(sums) + Layers(m, shared, dense, tp, w, l)
      invariant forall p :: At(more, p) == At(sums, p) + LayerParts(m, shared, dense, tp, w, l, p)
    {
      more := AddLayer(m, shared, dense, tp, w, l, more);
    }
  }

  method AddMtps(m: Model, shared: Ffn, tp: nat, w: Widths, sums: ByName) returns (more: ByName)
    requires tp > 0
    ensures Total(more) == Total(sums) + Mtps(m, shared, tp, w, m.mtpLayers)
    ensures forall p :: At(more, p) == At(sums, p) + MtpParts(m, shared, tp, w, m.mtpLayers, p)
  {
    more := sums;
    for k := 0 to m.mtpLayers
      invariant Total(more) == Total(sums) + Mtps(m, shared, tp, w, k)
      invariant forall p :: At(more, p) == At(sums, p) + MtpParts(m, shared, tp, w, k, p)
    {
      var l := MtpLayer(m, k);
      more := AddMtp(m, shared, tp, w, l, more);
    }
  }

  /** Everything the region holds of one component. */
  function PartOf(m: Model, shared: Ffn, dense: Ffn, tp: nat, w: Widths, p: Part): nat
    requires tp > 0
  {
    (if p == Embedding || p == OutputHead then Share(m.vocab * m.hidden * 2, tp)
     else if p == FinalNorm then m.hidden * 2 else 0)
    + LayerParts(m, shared, dense, tp, w, m.layers, p) + MtpParts(m, shared, tp, w, m.mtpLayers, p)
  }

  /** All components, once the feed-forward widths are known to split into blocks. */
  method AddAll(m: Model, shared: Ffn, dense: Ffn, tp: nat, w: Widths) returns (sums: ByName)
    requires tp > 0
    ensures Total(sums) + ALIGN_BUDGET == RegionBytes(m, shared, dense, tp, w)
    ensures forall p :: At(sums, p) == PartOf(m, shared, dense, tp, w, p)
  {
    sums := AddEnds(m, tp);
    sums := AddLayers(m, shared, dense, tp, w, sums);
    sums := Add(sums, FinalNorm, m.hidden * 2);
    sums := AddMtps(m, shared, tp, w, sums);
  }

  /** pinned_region_layout: None where a feed-forward width does not split into blocks. */
  method Layout(m: Model, q: Weights, tp: nat, w: Widths) returns (total: Option<nat>, sums: ByName)
    requires tp > 0 && Servable(q)
    ensures total == Region(m, q, tp, w)
    ensures total.Some? ==> Total(sums) + 32 * 1024 == total.value
    ensures total.Some? ==> forall p ::
      At(sums, p) == PartOf(m, FfnOf(q, m.hidden, m.moeInt).value, FfnOf(q, m.hidden, m.denseInt).value, tp, w, p)
  {
    sums := map[];
    var shared, dense := FfnOf(q, m.hidden, m.moeInt), FfnOf(q, m.hidden, m.denseInt);
    if shared.None? || dense.None? {
      return None, sums;
    }
    sums := AddAll(m, shared.value, dense.value, tp, w);
    var all := SumValues(sums);
    total := Some(all + ALIGN_BUDGET);
  }

  method AddEnds(m: Model, tp: nat) returns (sums: ByName)
    requires tp > 0
    ensures Total(sums) == EndsBytes(m, tp)
    ensures forall p ::
      At(sums, p) == if p == Embedding || p == OutputHead then Share(m.vocab * m.hidden * 2, tp) else 0
  {
    sums := map[];
    sums := Add(sums, Embedding, Share(m.vocab * m.hidden * 2, tp));
    sums := Add(sums, OutputHead, Share(m.vocab * m.hidden * 2, tp));
  }
}
