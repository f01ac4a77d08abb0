// The untiered arm of the solver's per-GPU fit, and the loop that lowers the
// asked context to what that fit can admit (python/autoconfig/solver.py).
module UntieredFit {
  import opened IntMath
  import opened Admission
  import SearchTrust

  datatype Result<+T, +E> = Ok(value: T) | Err(error: E)

  datatype Refusal =
    | KvDemandExceedsVram(demand: nat, pages: nat)
    | ConcAskExceedsPool(conc: nat, demand: nat, pool: nat)
    | CarveOverflow(committed: int, usable: int)
    | PinnedNotAdmissible(ceiling: nat)
    | MaxSeqNotAdmissible(ceiling: nat)

  /** The model and the solver's constants. */
  datatype Shape = Shape(
    kvLayers: nat, dsaLayers: nat, linearLayers: nat, hasDsa: bool,
    bytesPerPage: nat, indexerPageBytes: nat,
    page: nat, indexerPage: nat, chunkTokens: nat, prefixEntries: nat, stateRow: bool)

  /** One GPU at one TP degree, and what is asked of it. */
  datatype Ask = Ask(
    usable: nat, pinned: nat, draft: nat, margin: nat, scratch: nat, experts: nat,
    layerState: nat, slotState: nat,
    tp: nat, sharded: bool, localIndexer: bool, conc: nat, maxSeq: nat)

  datatype Plan = Plan(
    kda: nat, kdaMapped: bool, idxShare: nat, kvPool: nat,
    poolPages: nat, kvPages: nat, idxPages: nat, statePages: nat, demandPages: nat, admissible: nat)

  predicate Sizable(s: Shape) {
    s.bytesPerPage > 0 && s.page > 0 && s.indexerPage > 0
  }

  // ---- slabs ----------------------------------------------------------------

  function PagesPerSlab(s: Shape): nat
    requires Sizable(s)
  {
    if s.hasDsa then CeilDiv(s.indexerPageBytes, s.bytesPerPage) else 0
  }

  function SlabBytes(s: Shape): nat
    requires Sizable(s)
  {
    PagesPerSlab(s) * s.bytesPerPage
  }

  predicate Mapped(s: Shape) {
    s.linearLayers > 0 && s.stateRow && s.hasDsa
  }

  /** kda_mapped_demand_bytes */
  function MappedStateBytes(linearLayers: nat, layerState: nat, slabBytes: nat): nat {
    if linearLayers == 0 || slabBytes == 0 then 0 else linearLayers * CeilDiv(layerState, slabBytes) * slabBytes
  }

  /** kda_mapped_state_pages */
  function MappedStatePages(linearLayers: nat, layerState: nat, slabBytes: nat, pagesPerSlab: nat): nat {
    if linearLayers == 0 || slabBytes == 0 || pagesPerSlab == 0 then 0
    else linearLayers * CeilDiv(layerState, slabBytes) * pagesPerSlab
  }

  // ---- the fit --------------------------------------------------------------

  function Shards(a: Ask): nat {
    if a.tp >= 2 && a.sharded then a.tp else 1
  }

  function IndexerShards(a: Ask): nat {
    if a.localIndexer && a.tp > 1 then a.tp else 1
  }

  function StatePages(s: Shape, a: Ask): nat
    requires Sizable(s)
  {
    if Mapped(s) then MappedStatePages(s.linearLayers, a.layerState, SlabBytes(s), PagesPerSlab(s)) else 0
  }

  function KdaBytes(s: Shape, a: Ask): nat
    requires Sizable(s)
  {
    var slots: nat := Max(1, a.conc) + s.prefixEntries;
    if s.linearLayers == 0 then 0
    else if Mapped(s) then slots * MappedStateBytes(s.linearLayers, a.layerState, SlabBytes(s))
    else slots * a.slotState
  }

  function IndexerBytesPerSequence(s: Shape, a: Ask): nat
    requires Sizable(s)
  {
    if s.hasDsa then IndexerPages(a.maxSeq, s.indexerPage, IndexerShards(a)) * s.dsaLayers * SlabBytes(s) else 0
  }

  /** How many sequences' indexer share a quarter of the remaining VRAM affords, at least one, at most conc. */
  function IndexerSequences(s: Shape, a: Ask): nat
    requires Sizable(s)
  {
    var perSeq := IndexerBytesPerSequence(s, a);
    var residual := Fixed(s, a) - perSeq;
    var afford := if perSeq > 0 then 1 + Max(residual, 0) / 4 / perSeq else a.conc;
    Min(a.conc, Max(1, afford))
  }

  /** VRAM left by everything that does not depend on the context length. */
  function Fixed(s: Shape, a: Ask): int
    requires Sizable(s)
  {
    a.usable - a.pinned - a.draft - a.margin - KdaBytes(s, a) - a.experts - a.scratch
  }

  function IndexerShareBytes(s: Shape, a: Ask): nat
    requires Sizable(s)
  {
    if s.hasDsa then IndexerBytesPerSequence(s, a) * IndexerSequences(s, a) else 0
  }

  function Available(s: Shape, a: Ask): int
    requires Sizable(s)
  {
    Fixed(s, a) - IndexerShareBytes(s, a)
  }

  /** The fifteen percent of the KV share that the speculation pool takes. */
  function SpeculationBytes(kvPool: nat): (b: nat)
    ensures b <= kvPool
  {
    kvPool * 15 / 100
  }

  function KvGeometry(s: Shape, a: Ask): Geometry {
    Geometry(s.page, s.kvLayers, 0, 0, 0, 0, Shards(a), s.chunkTokens, 1)
  }

  function SearchGeometry(s: Shape, a: Ask): Geometry
    requires Sizable(s)
  {
    Geometry(s.page, s.kvLayers, if s.hasDsa && PagesPerSlab(s) > 0 then s.dsaLayers else 0, s.indexerPage,
             PagesPerSlab(s), StatePages(s, a), Shards(a), s.chunkTokens, IndexerShards(a))
  }

  function PoolBytes(s: Shape, a: Ask, kvPool: nat): nat
    requires Sizable(s)
  {
    kvPool - SpeculationBytes(kvPool) + IndexerShareBytes(s, a) + if Mapped(s) then KdaBytes(s, a) else 0
  }

  /** The shared pool: KV without the speculation split, plus the indexer and mapped-state shares. */
  function PoolPages(s: Shape, a: Ask, kvPool: nat): nat
    requires Sizable(s)
  {
    FloorDiv(PoolBytes(s, a, kvPool), s.bytesPerPage)
  }

  function KvPoolPages(s: Shape, a: Ask): nat
    requires Sizable(s)
  {
    AutoKvPages(a.maxSeq, s.page, Shards(a), s.chunkTokens, a.conc, s.kvLayers, Max(Available(s, a), 0), s.bytesPerPage)
  }

  /** _tp_fit without tiering, for one GPU of the TP group. */
  function Fit(s: Shape, a: Ask): Result<Plan, Refusal>
    requires Sizable(s)
  {
    var pages := KvPoolPages(s, a);
    var floorDemand := FloorDemand(a.maxSeq, s.page, Shards(a), a.conc, s.kvLayers);
    if pages < floorDemand then Err(KvDemandExceedsVram(floorDemand, pages))
    else
      var kvPool := pages * s.bytesPerPage;
      var g := SearchGeometry(s, a);
      var pool := PoolPages(s, a, kvPool);
      var kvPages := Demand(KvGeometry(s, a), a.maxSeq);
      var idxPages: int := Demand(g.(statePages := 0), a.maxSeq) - kvPages;
      var demand := kvPages + idxPages + g.statePages;
      if a.conc > 1 && pool > 0 && pool < a.conc * demand then Err(ConcAskExceedsPool(a.conc, demand, pool))
      else
        var committed := a.usable - Fixed(s, a) + IndexerShareBytes(s, a) + kvPool;
        if committed > a.usable then Err(CarveOverflow(committed, a.usable))
        else Ok(Plan(KdaBytes(s, a), Mapped(s), IndexerShareBytes(s, a), kvPool,
                     pool, kvPages, idxPages, g.statePages, demand, AdmissibleTokens(g, pool)))
  }

  // ---- accounting -----------------------------------------------------------

  /** On slabbed shapes the mapped state's bytes are its pages' bytes. */
  lemma MappedStateAccounting(s: Shape, layerState: nat)
    requires Sizable(s)
    ensures MappedStateBytes(s.linearLayers, layerState, SlabBytes(s))
         == MappedStatePages(s.linearLayers, layerState, SlabBytes(s), PagesPerSlab(s)) * s.bytesPerPage
  {
    var pps, bpp := PagesPerSlab(s), s.bytesPerPage;
    if pps == 0 {
    } else {
      MulLe(1, pps, bpp);
      if s.linearLayers > 0 {
        var n := s.linearLayers * CeilDiv(layerState, SlabBytes(s));
        assert n * (pps * bpp) == n * pps * bpp;
      }
    }
  }

  /** One sequence's indexer bytes are its admission pages' bytes, in either indexer mode. */
  lemma IndexerAccounting(s: Shape, a: Ask)
    requires Sizable(s)
    ensures IndexerBytesPerSequence(s, a) == IndexerShare(SearchGeometry(s, a), a.maxSeq) * s.bytesPerPage
  {
    var g, pps, bpp := SearchGeometry(s, a), PagesPerSlab(s), s.bytesPerPage;
    if s.hasDsa {
      var n := IndexerPages(a.maxSeq, s.indexerPage, IndexerShards(a)) * s.dsaLayers;
      assert n * (pps * bpp) == n * pps * bpp;
    }
  }

  /** KV, indexer and state parts sum to the very demand the ceiling search uses. */
  lemma PartsSumToDemand(s: Shape, a: Ask)
    requires Sizable(s) && Fit(s, a).Ok?
    ensures var p := Fit(s, a).value;
      p.demandPages == p.kvPages + p.idxPages + p.statePages == Demand(SearchGeometry(s, a), a.maxSeq)
  {
  }

  /** An accepted plan never commits more than the GPU has. */
  lemma AcceptedFits(s: Shape, a: Ask)
    requires Sizable(s) && Fit(s, a).Ok?
    ensures var p := Fit(s, a).value;
      a.pinned + a.draft + a.margin + a.scratch + a.experts + p.kda + p.kvPool + p.idxShare <= a.usable
  {
  }

  /**
   * The reported ceiling reaches an asked length exactly when the pool holds
   * that length's demand and the search's upper end reaches it.
   */
  lemma AtLeastAsked(g: Geometry, pool: nat, asked: nat)
    requires Searchable(g, pool) && asked > 0
    ensures AdmissibleTokens(g, pool) >= asked <==> Demand(g, asked) <= pool && asked <= SearchBound(g, pool)
    ensures SearchTrust.KeepsPace(g) ==> (AdmissibleTokens(g, pool) >= asked <==> Demand(g, asked) <= pool)
  {
    var t := AdmissibleTokens(g, pool);
    DemandMonotone(g, 0, asked);
    SearchFinds(g, pool);
    if Demand(g, 0) <= pool {
      SearchInvariant(g, pool, 0, SearchBound(g, pool));
      if t >= asked {
        DemandMonotone(g, asked, t);
      } else if asked <= SearchBound(g, pool) {
        DemandMonotone(g, t + 1, asked);
      } else {
        DemandMonotone(g, SearchBound(g, pool) + 1, asked);
      }
    }
    if SearchTrust.KeepsPace(g) {
      SearchTrust.PaceSuffices(g, pool);
    }
  }

  /**
   * When several concurrent requests are accepted, the ceiling the plan reports
   * is at least the asked length exactly when the search's upper end reaches
   * that length; and it does unless the shards outnumber all the requests' KV
   * layers together.
   */
  lemma AcceptedIsAdmissible(s: Shape, a: Ask)
    requires Sizable(s) && Fit(s, a).Ok? && a.conc > 1 && Fit(s, a).value.poolPages > 0 && s.kvLayers > 0
    ensures var p := Fit(s, a).value;
      p.admissible >= a.maxSeq <==> a.maxSeq <= SearchBound(SearchGeometry(s, a), p.poolPages)
    ensures Shards(a) <= a.conc * s.kvLayers ==> Fit(s, a).value.admissible >= a.maxSeq
  {
    var p, g := Fit(s, a).value, SearchGeometry(s, a);
    ConcAskHolds(s, a);
    MulLe(1, a.conc, Demand(g, a.maxSeq));
    if a.maxSeq > 0 {
      AtLeastAsked(g, p.poolPages, a.maxSeq);
    }
    if Shards(a) <= a.conc * s.kvLayers {
      BoundReaches(g, a.conc, a.maxSeq, p.poolPages);
    }
  }

  /** A pool for several requests has an upper end past their length, if the layers of all match the shards. */
  lemma BoundReaches(g: Geometry, conc: nat, asked: nat, pool: nat)
    requires g.page > 0 && SearchTrust.Shards(g) <= conc * g.layers && conc * Demand(g, asked) <= pool
    ensures asked <= SearchBound(g, pool)
  {
    var n, p := CeilDiv(asked, g.page), SequencePages(asked, g.page, g.shard, g.chunkTokens);
    SearchTrust.KvBounds(g, asked);
    PagesWithin(n, p, SearchTrust.Shards(g), conc, g.layers, Demand(g, asked), pool);
    SearchTrust.CeilBounds(asked, g.page);
    MulLe(n, pool, g.page);
  }

  lemma PagesWithin(n: nat, p: nat, shards: nat, conc: nat, layers: nat, demand: nat, pool: nat)
    requires n <= p * shards && shards <= conc * layers && p * layers <= demand && conc * demand <= pool
    ensures n <= pool
  {
    MulLe(shards, conc * layers, p);
    assert p * (conc * layers) == conc * (p * layers);
    MulLe(p * layers, demand, conc);
  }

  lemma ConcAskHolds(s: Shape, a: Ask)
    requires Sizable(s) && Fit(s, a).Ok? && a.conc > 1 && Fit(s, a).value.poolPages > 0
    ensures a.conc * Demand(SearchGeometry(s, a), a.maxSeq) <= Fit(s, a).value.poolPages
  {
    PartsSumToDemand(s, a);
  }

  // ---- exactly when an untiered ask is admissible ---------------------------

  /** The KV pages all concurrent requests need together. */
  function KvNeed(s: Shape, a: Ask): nat
    requires Sizable(s)
  {
    a.conc * SequencePages(a.maxSeq, s.page, Shards(a), s.chunkTokens) * s.kvLayers
  }

  /** VRAM is not what binds: it affords every sequence's indexer share and all the KV pages asked for. */
  ghost predicate Ample(s: Shape, a: Ask)
    requires Sizable(s)
  {
    IndexerSequences(s, a) == a.conc && KvNeed(s, a) * s.bytesPerPage <= Available(s, a)
  }

  /** With ample VRAM the KV pool is exactly what conc requests need. */
  lemma AmplePool(s: Shape, a: Ask)
    requires Sizable(s) && Ample(s, a)
    ensures KvPoolPages(s, a) == KvNeed(s, a) >= FloorDemand(a.maxSeq, s.page, Shards(a), a.conc, s.kvLayers)
  {
    MulLe(0, KvNeed(s, a), s.bytesPerPage);
    UncappedPool(a.maxSeq, s.page, Shards(a), s.chunkTokens, a.conc, s.kvLayers, Max(Available(s, a), 0),
                 s.bytesPerPage, KvNeed(s, a));
    NeedCoversFloor(a.maxSeq, s.page, Shards(a), s.chunkTokens, a.conc, s.kvLayers);
  }

  lemma NeedIsConcTimesKv(s: Shape, a: Ask)
    requires Sizable(s)
    ensures KvNeed(s, a) == a.conc * KvPages(SearchGeometry(s, a), a.maxSeq)
  {
    var n := SequencePages(a.maxSeq, s.page, Shards(a), s.chunkTokens);
    assert a.conc * n * s.kvLayers == a.conc * (n * s.kvLayers);
  }

  /** The mapped state of one request, in bytes; 0 when the state is not a tenant of the pool. */
  function TenantStateBytes(s: Shape, a: Ask): nat
    requires Sizable(s)
  {
    if Mapped(s) then MappedStateBytes(s.linearLayers, a.layerState, SlabBytes(s)) else 0
  }

  lemma PoolVersusDemand(conc: nat, kv: nat, idx: nat, state: nat, bpp: nat, spec: nat, spare: nat, pool: nat)
    requires bpp > 0 && spec <= conc * kv * bpp
    requires pool == FloorDiv(conc * kv * bpp - spec + idx * bpp * conc + (conc + spare) * (state * bpp), bpp)
    ensures pool >= conc * (kv + idx + state) <==> spec <= spare * (state * bpp)
  {
    var demand := conc * (kv + idx + state);
    assert demand * bpp == conc * kv * bpp + idx * bpp * conc + conc * (state * bpp);
    assert (conc + spare) * (state * bpp) == conc * (state * bpp) + spare * (state * bpp);
    DivReaches(conc * kv * bpp - spec + idx * bpp * conc + (conc + spare) * (state * bpp), bpp, demand);
  }

  /**
   * With ample VRAM, the pool holds the whole ask exactly when the prefix
   * cache's spare state slots cover the speculation split: fifteen percent of
   * the KV bytes, against one mapped state per prefix-cache entry.
   */
  lemma PoolHoldsAsk(s: Shape, a: Ask)
    requires Sizable(s) && IndexerSequences(s, a) == a.conc >= 1
    ensures var kvPool := KvNeed(s, a) * s.bytesPerPage;
      PoolPages(s, a, kvPool) >= a.conc * Demand(SearchGeometry(s, a), a.maxSeq)
      <==> SpeculationBytes(kvPool) <= s.prefixEntries * TenantStateBytes(s, a)
  {
    var g, bpp := SearchGeometry(s, a), s.bytesPerPage;
    var kv, idx := KvPages(g, a.maxSeq), IndexerShare(g, a.maxSeq);
    NeedIsConcTimesKv(s, a);
    var kvPool := a.conc * kv * bpp;
    IndexerAccounting(s, a);
    MappedStateAccounting(s, a.layerState);
    assert TenantStateBytes(s, a) == g.statePages * bpp;
    assert PoolBytes(s, a, kvPool)
        == kvPool - SpeculationBytes(kvPool) + idx * bpp * a.conc + (a.conc + s.prefixEntries) * (g.statePages * bpp);
    PoolVersusDemand(a.conc, kv, idx, g.statePages, bpp, SpeculationBytes(kvPool), s.prefixEntries,
                     PoolPages(s, a, kvPool));
  }

  /** The fit's three tests, one after the other. */
  lemma FitCases(s: Shape, a: Ask)
    requires Sizable(s)
    ensures var pages, pool := KvPoolPages(s, a), PoolPages(s, a, KvPoolPages(s, a) * s.bytesPerPage);
      var demand := Demand(SearchGeometry(s, a), a.maxSeq);
      if pages < FloorDemand(a.maxSeq, s.page, Shards(a), a.conc, s.kvLayers)
      then Fit(s, a).Err? && Fit(s, a).error.KvDemandExceedsVram?
      else if a.conc > 1 && pool > 0 && pool < a.conc * demand
      then Fit(s, a) == Err(ConcAskExceedsPool(a.conc, demand, pool))
      else if pages * s.bytesPerPage > Available(s, a)
      then Fit(s, a).Err? && Fit(s, a).error.CarveOverflow?
      else Fit(s, a).Ok? && Fit(s, a).value.poolPages == pool
           && Fit(s, a).value.admissible == AdmissibleTokens(SearchGeometry(s, a), pool)
  {
  }

  /** Two KV pages leave at least one beside the speculation split. */
  lemma PoolIsNotEmpty(s: Shape, a: Ask, pages: nat)
    requires Sizable(s) && pages >= 2
    ensures PoolPages(s, a, pages * s.bytesPerPage) > 0
  {
    MulLe(2, pages, s.bytesPerPage);
    DivReaches(PoolBytes(s, a, pages * s.bytesPerPage), s.bytesPerPage, 1);
  }

  /** Hence exactly when several concurrent requests are refused although VRAM affords them. */
  lemma ConcAskRefusedExactly(s: Shape, a: Ask)
    requires Sizable(s) && Ample(s, a) && a.conc > 1
    ensures (Fit(s, a).Err? && Fit(s, a).error.ConcAskExceedsPool?)
      <==> SpeculationBytes(KvNeed(s, a) * s.bytesPerPage) > s.prefixEntries * TenantStateBytes(s, a)
  {
    AmplePool(s, a);
    PoolHoldsAsk(s, a);
    FitCases(s, a);
    MulLe(0, s.prefixEntries, TenantStateBytes(s, a));
    if KvNeed(s, a) > 0 {
      NeedOfMany(a.conc, SequencePages(a.maxSeq, s.page, Shards(a), s.chunkTokens), s.kvLayers);
      PoolIsNotEmpty(s, a, KvNeed(s, a));
    }
  }

  lemma NeedOfMany(conc: nat, pages: nat, layers: nat)
    requires conc > 1 && conc * pages * layers > 0
    ensures conc * pages * layers >= 2
  {
    MulLe(1, pages * layers, conc);
    assert conc * pages * layers == conc * (pages * layers);
  }

  lemma SomePages(s: Shape, a: Ask)
    requires Sizable(s) && a.maxSeq > 0 && s.kvLayers > 0
    ensures Demand(SearchGeometry(s, a), a.maxSeq) > 0
  {
    var g := SearchGeometry(s, a);
    var p := SequencePages(a.maxSeq, g.page, g.shard, g.chunkTokens);
    SearchTrust.KvBounds(g, a.maxSeq);
    SearchTrust.CeilBounds(a.maxSeq, g.page);
    MulLe(1, p, g.layers);
  }

  /** A single request with ample VRAM is accepted, and is admissible under the same condition. */
  lemma SingleAskAdmissibleExactly(s: Shape, a: Ask)
    requires Sizable(s) && Ample(s, a) && a.conc == 1 && a.maxSeq > 0
    requires s.kvLayers > 0 && SearchTrust.KeepsPace(SearchGeometry(s, a))
    ensures Fit(s, a).Ok?
    ensures Fit(s, a).value.admissible >= a.maxSeq
      <==> SpeculationBytes(KvNeed(s, a) * s.bytesPerPage) <= s.prefixEntries * TenantStateBytes(s, a)
  {
    AmplePool(s, a);
    PoolHoldsAsk(s, a);
    FitCases(s, a);
    SomePages(s, a);
    var p := Fit(s, a).value;
    if p.poolPages > 0 {
      AtLeastAsked(SearchGeometry(s, a), p.poolPages, a.maxSeq);
    }
  }
}
