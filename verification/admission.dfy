// KV page demand, pool sizing, and the search for the longest admissible
// context (python/autoconfig/sizing.py).
module Admission {
  import opened IntMath
  import opened KvSharding

  /** What one request's demand depends on; all counts. */
  datatype Geometry = Geometry(
    page: nat, layers: nat, dsaLayers: nat, indexerPage: nat, pagesPerSlab: nat, statePages: nat,
    shard: nat, chunkTokens: nat, indexerShard: nat)

  function PagesPerChunk(page: nat, chunkTokens: nat): (n: nat)
    requires page > 0
    ensures n > 0
  {
    Max(1, chunkTokens / page)
  }

  /** KV pages of one layer and one sequence on the worst rank. */
  function SequencePages(tokens: nat, page: nat, shard: nat, chunkTokens: nat): nat
    requires page > 0
  {
    var n := CeilDiv(tokens, page);
    if shard > 1 then Rank0Pages(n, PagesPerChunk(page, chunkTokens), shard) else n
  }

  function IndexerPages(tokens: nat, indexerPage: nat, indexerShard: nat): nat
    requires indexerPage > 0
  {
    var n := CeilDiv(tokens, indexerPage);
    if indexerShard > 1 then CeilDiv(n, indexerShard) else n
  }

  predicate HasIndexer(g: Geometry) {
    g.dsaLayers > 0 && g.indexerPage > 0 && g.pagesPerSlab > 0
  }

  function KvPages(g: Geometry, tokens: nat): nat
    requires g.page > 0
  {
    SequencePages(tokens, g.page, g.shard, g.chunkTokens) * g.layers
  }

  function IndexerShare(g: Geometry, tokens: nat): nat {
    if HasIndexer(g) then IndexerPages(tokens, g.indexerPage, g.indexerShard) * g.dsaLayers * g.pagesPerSlab else 0
  }

  /** single_request_demand_pages */
  function Demand(g: Geometry, tokens: nat): nat
    requires g.page > 0
  {
    KvPages(g, tokens) + IndexerShare(g, tokens) + g.statePages
  }

  /** auto_kv_pages: what conc requests need, capped by what the free bytes hold. */
  function AutoKvPages(maxSeq: nat, page: nat, shard: nat, chunkTokens: nat, conc: nat, layers: nat,
                       available: int, bytesPerPage: nat): nat
    requires page > 0
  {
    var needed := conc * SequencePages(maxSeq, page, shard, chunkTokens) * layers;
    Max(if bytesPerPage > 0 then Min(needed, available / bytesPerPage) else needed, 0)
  }

  // ---- monotonicity ---------------------------------------------------------

  lemma SequencePagesMonotone(a: nat, b: nat, page: nat, shard: nat, chunkTokens: nat)
    requires page > 0 && a <= b
    ensures SequencePages(a, page, shard, chunkTokens) <= SequencePages(b, page, shard, chunkTokens)
  {
    CeilDivLe(a, b, page);
    if shard > 1 {
      Rank0Monotone(CeilDiv(a, page), CeilDiv(b, page), PagesPerChunk(page, chunkTokens), shard);
    }
  }

  lemma IndexerShareMonotone(g: Geometry, a: nat, b: nat)
    requires a <= b
    ensures IndexerShare(g, a) <= IndexerShare(g, b)
  {
    if HasIndexer(g) {
      CeilDivLe(a, b, g.indexerPage);
      if g.indexerShard > 1 {
        CeilDivLe(CeilDiv(a, g.indexerPage), CeilDiv(b, g.indexerPage), g.indexerShard);
      }
      var x, y := IndexerPages(a, g.indexerPage, g.indexerShard), IndexerPages(b, g.indexerPage, g.indexerShard);
      MulLe(x, y, g.dsaLayers);
      MulLe(x * g.dsaLayers, y * g.dsaLayers, g.pagesPerSlab);
    }
  }

  /** A longer request never demands fewer pages, through the shard cycle and the indexer terms alike. */
  lemma DemandMonotone(g: Geometry, a: nat, b: nat)
    requires g.page > 0 && a <= b
    ensures Demand(g, a) <= Demand(g, b)
  {
    SequencePagesMonotone(a, b, g.page, g.shard, g.chunkTokens);
    MulLe(SequencePages(a, g.page, g.shard, g.chunkTokens), SequencePages(b, g.page, g.shard, g.chunkTokens), g.layers);
    IndexerShareMonotone(g, a, b);
  }

  // ---- the search -----------------------------------------------------------

  /** The search's upper end. */
  function SearchBound(g: Geometry, pool: nat): nat {
    pool * g.page + g.page
  }

  function Search(g: Geometry, pool: nat, lo: nat, hi: nat): nat
    requires g.page > 0 && lo <= hi
    decreases hi - lo
  {
    if lo == hi then lo
    else
      var mid := lo + (hi - lo + 1) / 2;
      if Demand(g, mid) <= pool then Search(g, pool, mid, hi) else Search(g, pool, lo, mid - 1)
  }

  function Searchable(g: Geometry, pool: int): bool {
    pool > 0 && g.page > 0 && g.layers > 0
  }

  /** admissible_context_tokens as a value. */
  function AdmissibleTokens(g: Geometry, pool: int): nat {
    if Searchable(g, pool) then Search(g, pool, 0, SearchBound(g, pool)) else 0
  }

  /** The loop itself. */
  method AdmissibleContext(g: Geometry, pool: int) returns (t: nat)
    ensures t == AdmissibleTokens(g, pool)
  {
    if pool <= 0 || g.page <= 0 || g.layers <= 0 {
      return 0;
    }
    var lo, hi := 0, pool * g.page + g.page;
    while lo < hi
      invariant 0 <= lo <= hi && Search(g, pool, lo, hi) == AdmissibleTokens(g, pool)
    {
      var mid := lo + (hi - lo + 1) / 2;
      if Demand(g, mid) <= pool {
        lo := mid;
      } else {
        hi := mid - 1;
      }
    }
    return lo;
  }

  /** t is the largest request the pool can hold. */
  ghost predicate IsCeiling(g: Geometry, pool: nat, t: nat)
    requires g.page > 0
  {
    Demand(g, t) <= pool && forall s: nat :: Demand(g, s) <= pool ==> s <= t
  }

  lemma {:induction false} SearchInvariant(g: Geometry, pool: nat, lo: nat, hi: nat)
    requires g.page > 0 && lo <= hi && Demand(g, lo) <= pool
    ensures var t := Search(g, pool, lo, hi);
      lo <= t <= hi && Demand(g, t) <= pool && (t == hi || Demand(g, t + 1) > pool)
    decreases hi - lo
  {
    if lo < hi {
      var mid := lo + (hi - lo + 1) / 2;
      if Demand(g, mid) <= pool {
        SearchInvariant(g, pool, mid, hi);
      } else {
        SearchInvariant(g, pool, lo, mid - 1);
      }
    }
  }

  lemma {:induction false} SearchAllTooLarge(g: Geometry, pool: nat, hi: nat)
    requires g.page > 0 && Demand(g, 0) > pool
    ensures Search(g, pool, 0, hi) == 0
    decreases hi
  {
    if hi > 0 {
      var mid := (hi + 1) / 2;
      DemandMonotone(g, 0, mid);
      SearchAllTooLarge(g, pool, mid - 1);
    }
  }

  lemma CeilingByNeighbour(g: Geometry, pool: nat, t: nat)
    requires g.page > 0 && Demand(g, t) <= pool < Demand(g, t + 1)
    ensures IsCeiling(g, pool, t)
  {
    forall s: nat | Demand(g, s) <= pool ensures s <= t {
      if s > t {
        DemandMonotone(g, t + 1, s);
      }
    }
  }

  /**
   * What the search finds. Its answer never exceeds the bound; when not even
   * an empty request fits it is 0, which then is not admissible; otherwise it
   * is admissible, and it is the true ceiling exactly when a request one token
   * past the bound does not fit.
   */
  lemma SearchFinds(g: Geometry, pool: int)
    requires Searchable(g, pool)
    ensures var t, past := AdmissibleTokens(g, pool), SearchBound(g, pool) + 1;
      && t <= SearchBound(g, pool)
      && (Demand(g, 0) > pool ==> t == 0)
      && (Demand(g, 0) <= pool ==> Demand(g, t) <= pool && (IsCeiling(g, pool, t) <==> Demand(g, past) > pool))
  {
    var hi := SearchBound(g, pool);
    if Demand(g, 0) > pool {
      SearchAllTooLarge(g, pool, hi);
    } else {
      SearchInvariant(g, pool, 0, hi);
      var t := AdmissibleTokens(g, pool);
      if t < hi {
        CeilingByNeighbour(g, pool, t);
        DemandMonotone(g, t + 1, hi + 1);
      } else if Demand(g, hi + 1) > pool {
        CeilingByNeighbour(g, pool, t);
      }
    }
  }

  lemma PagesPastBound(g: Geometry, pool: nat)
    requires g.page > 0
    ensures CeilDiv(SearchBound(g, pool) + 1, g.page) == pool + 2
  {
    assert SearchBound(g, pool) + 1 == (pool + 1) * g.page + 1;
    if g.page == 1 {
    } else {
      CeilDivMultiple(pool + 1, 1, g.page);
    }
  }

  /** With no more shards than KV layers the bound is high enough, whatever the indexer and the state take. */
  lemma ShardsWithinLayersSuffice(g: Geometry, pool: nat)
    requires g.page > 0 && g.layers > 0 && g.shard <= g.layers
    ensures Demand(g, SearchBound(g, pool) + 1) > pool
  {
    var past := SearchBound(g, pool) + 1;
    PagesPastBound(g, pool);
    var n, pages := pool + 2, SequencePages(past, g.page, g.shard, g.chunkTokens);
    if g.shard > 1 {
      Rank0AtLeastShare(n, PagesPerChunk(g.page, g.chunkTokens), g.shard);
      MulLe(g.shard, g.layers, pages);
    } else {
      MulLe(1, g.layers, pages);
    }
    assert pages * g.layers >= n;
  }

  /** The answer is the ceiling for every pool, given no more shards than layers. */
  lemma SearchIsExact(g: Geometry, pool: int)
    requires Searchable(g, pool) && Demand(g, 0) <= pool && g.shard <= g.layers
    ensures IsCeiling(g, pool, AdmissibleTokens(g, pool))
    ensures var t := AdmissibleTokens(g, pool); Demand(g, t) <= pool < Demand(g, t + 1)
  {
    SearchFinds(g, pool);
    ShardsWithinLayersSuffice(g, pool);
    var t := AdmissibleTokens(g, pool);
    if Demand(g, t + 1) <= pool {
      assert false;
    }
  }

  // ---- pool sizing ----------------------------------------------------------

  /** The solver's own floor of the demand: page count divided by the shards, rounded down. */
  function FloorDemand(maxSeq: nat, page: nat, shard: nat, conc: nat, layers: nat): nat
    requires page > 0
  {
    var n := CeilDiv(maxSeq, page);
    conc * (if shard > 1 then n / shard else n) * layers
  }

  lemma NeedCoversFloor(maxSeq: nat, page: nat, shard: nat, chunkTokens: nat, conc: nat, layers: nat)
    requires page > 0
    ensures FloorDemand(maxSeq, page, shard, conc, layers)
         <= conc * SequencePages(maxSeq, page, shard, chunkTokens) * layers
  {
    var n, have := CeilDiv(maxSeq, page), SequencePages(maxSeq, page, shard, chunkTokens);
    var floor := if shard > 1 then n / shard else n;
    if shard > 1 {
      Rank0AtLeastShare(n, PagesPerChunk(page, chunkTokens), shard);
    }
    MulLe(floor, have, conc);
    MulLe(conc * floor, conc * have, layers);
  }

  /** "kv-demand-exceeds-vram" is raised exactly when the VRAM cap, not the shard arithmetic, falls below the floor. */
  lemma RefusedOnlyByVram(maxSeq: nat, page: nat, shard: nat, chunkTokens: nat, conc: nat, layers: nat,
                          available: int, bytesPerPage: nat)
    requires page > 0
    ensures AutoKvPages(maxSeq, page, shard, chunkTokens, conc, layers, available, bytesPerPage)
         < FloorDemand(maxSeq, page, shard, conc, layers)
      <==> bytesPerPage > 0
           && Max(available / bytesPerPage, 0) < FloorDemand(maxSeq, page, shard, conc, layers)
  {
    NeedCoversFloor(maxSeq, page, shard, chunkTokens, conc, layers);
  }

  /** Uncapped, the pool is what the requests need. */
  lemma UncappedPool(maxSeq: nat, page: nat, shard: nat, chunkTokens: nat, conc: nat, layers: nat,
                     available: int, bytesPerPage: nat, need: nat)
    requires page > 0 && bytesPerPage > 0
    requires need == conc * SequencePages(maxSeq, page, shard, chunkTokens) * layers
    requires need * bytesPerPage <= available
    ensures AutoKvPages(maxSeq, page, shard, chunkTokens, conc, layers, available, bytesPerPage) == need
  {
    DivReaches(available, bytesPerPage, need);
  }
}
