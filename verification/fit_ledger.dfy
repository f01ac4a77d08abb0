// The untiered fit's numbers, each by what it is: the least slabs that cover, the
// most sequences that VRAM affords, the greatest pool; and the fit's verdict as
// three comparisons of sums (python/autoconfig/solver.py, _tp_fit).
module FitLedger {
  import opened IntMath
  import opened KvSharding
  import opened Admission
  import opened UntieredFit
  import opened DemandByRank

  // ---- slabs and state ----------------------------------------------------------

  /** A slab is the least number of KV pages that covers one indexer page. */
  lemma SlabExactly(s: Shape, n: nat)
    requires Sizable(s) && s.hasDsa
    ensures n == PagesPerSlab(s) <==> JustCovers(n, s.bytesPerPage, s.indexerPageBytes)
    ensures SlabBytes(s) == PagesPerSlab(s) * s.bytesPerPage
  {
    CeilCovers(n, s.bytesPerPage, s.indexerPageBytes);
  }

  /**
   * The recurrent state: one slot for every concurrent request, at least one,
   * and for every prefix-cache entry. A slot is the carved size, or, where state
   * is mapped and the model has slabs, the least whole slabs that cover a
   * layer's state, for every layer.
   */
  lemma StateExactly(s: Shape, a: Ask, slabs: nat)
    requires Sizable(s) && s.linearLayers > 0
    requires SlabBytes(s) > 0 ==> JustCovers(slabs, SlabBytes(s), a.layerState)
    ensures var slots := (if a.conc > 0 then a.conc else 1) + s.prefixEntries;
      KdaBytes(s, a) == slots *
        if s.stateRow && s.hasDsa then (if SlabBytes(s) > 0 then s.linearLayers * slabs * SlabBytes(s) else 0)
        else a.slotState
  {
    if SlabBytes(s) > 0 {
      CeilCovers(slabs, SlabBytes(s), a.layerState);
    }
  }

  lemma NoStateWithoutLayers(s: Shape, a: Ask)
    requires Sizable(s) && s.linearLayers == 0
    ensures KdaBytes(s, a) == 0 && StatePages(s, a) == 0
  {
  }

  /** Its pages in one request's demand, when it is mapped. */
  lemma StatePagesExactly(s: Shape, a: Ask, slabs: nat)
    requires Sizable(s) && s.linearLayers > 0 && s.stateRow && s.hasDsa && SlabBytes(s) > 0
    requires JustCovers(slabs, SlabBytes(s), a.layerState)
    ensures StatePages(s, a) == s.linearLayers * slabs * PagesPerSlab(s)
  {
    CeilCovers(slabs, SlabBytes(s), a.layerState);
  }

  // ---- the indexer's share --------------------------------------------------------

  /** One sequence's indexer bytes: a slab for each of rank 0's indexer pages, in every indexer layer. */
  lemma SequenceExactly(s: Shape, a: Ask, n: nat)
    requires Sizable(s) && JustCovers(n, s.indexerPage, a.maxSeq)
    ensures IndexerBytesPerSequence(s, a) == if !s.hasDsa then 0
      else Held(n, 1, if a.localIndexer && a.tp > 1 then a.tp else 1, 0) * s.dsaLayers * SlabBytes(s)
  {
    IndexerPagesExactly(a.maxSeq, s.indexerPage, IndexerShards(a), n);
  }

  /** What no context length changes, and one sequence's indexer bytes, are spent first. */
  function Residual(s: Shape, a: Ask): int
    requires Sizable(s)
  {
    a.usable - a.pinned - a.draft - a.margin - a.experts - a.scratch - KdaBytes(s, a) - IndexerBytesPerSequence(s, a)
  }

  /**
   * The share holds n sequences exactly when that many are asked and all but
   * the first fit in a quarter of the residual.
   */
  lemma SequencesExactly(s: Shape, a: Ask, n: nat)
    requires Sizable(s) && n > 0
    ensures n <= IndexerSequences(s, a) <==>
      n <= a.conc && (n == 1 || IndexerBytesPerSequence(s, a) == 0
                      || 4 * (n - 1) * IndexerBytesPerSequence(s, a) <= Residual(s, a))
  {
    var per, left := IndexerBytesPerSequence(s, a), Max(Residual(s, a), 0);
    assert Residual(s, a) == Fixed(s, a) - per;
    if per > 0 {
      DivReaches(left / 4, per, n - 1);
      DivReaches(left, 4, (n - 1) * per);
      MulLe(0, n - 1, per);
      assert 4 * (n - 1) * per == (n - 1) * per * 4;
      if n > 1 {
        MulLe(1, n - 1, per);
      }
    }
  }

  // ---- the pool -------------------------------------------------------------------

  /** Fifteen percent, rounded down. */
  lemma SplitExactly(kvPool: nat, split: nat)
    ensures split == SpeculationBytes(kvPool) <==> 100 * split <= 15 * kvPool < 100 * (split + 1)
  {
  }

  /** The shared pool is the most pages in the KV bytes less the split, the indexer share and mapped state. */
  lemma PoolExactly(s: Shape, a: Ask, kvPool: nat, split: nat, q: nat)
    requires Sizable(s) && 100 * split <= 15 * kvPool < 100 * (split + 1)
    ensures q <= PoolPages(s, a, kvPool) <==>
      q * s.bytesPerPage + split <= kvPool
        + (if s.hasDsa then IndexerBytesPerSequence(s, a) * IndexerSequences(s, a) else 0)
        + (if s.linearLayers > 0 && s.stateRow && s.hasDsa then KdaBytes(s, a) else 0)
  {
    SplitExactly(kvPool, split);
    DivReaches(PoolBytes(s, a, kvPool), s.bytesPerPage, q);
  }

  /** The KV pages granted are the most that all requests need and what is left of VRAM holds. */
  lemma KvPoolExactly(s: Shape, a: Ask, n: nat, k: nat, q: nat)
    requires Sizable(s) && JustCovers(n, s.page, a.maxSeq) && IsChunk(k, s.page, s.chunkTokens)
    ensures q <= KvPoolPages(s, a) <==>
      q == 0
      || (&& q <= a.conc * Held(n, k, if a.tp >= 2 && a.sharded then a.tp else 1, 0) * s.kvLayers
          && q * s.bytesPerPage + a.pinned + a.draft + a.margin + a.experts + a.scratch + KdaBytes(s, a)
             + IndexerShareBytes(s, a) <= a.usable)
  {
    PoolIsGreatest(a.maxSeq, s.page, Shards(a), s.chunkTokens, a.conc, s.kvLayers, Max(Available(s, a), 0),
                   s.bytesPerPage, n, k, q);
    if q > 0 {
      MulLe(1, q, s.bytesPerPage);
    }
  }

  /** One request's demand at the asked length: KV and indexer pages of the worst rank, and its state. */
  lemma RequestExactly(s: Shape, a: Ask, n: nat, k: nat, ni: nat)
    requires Sizable(s) && JustCovers(n, s.page, a.maxSeq) && IsChunk(k, s.page, s.chunkTokens)
    requires JustCovers(ni, s.indexerPage, a.maxSeq)
    ensures Demand(SearchGeometry(s, a), a.maxSeq)
      == s.kvLayers * Held(n, k, if a.tp >= 2 && a.sharded then a.tp else 1, 0)
         + (if s.hasDsa
            then s.dsaLayers * PagesPerSlab(s) * Held(ni, 1, if a.localIndexer && a.tp > 1 then a.tp else 1, 0)
            else 0)
         + StatePages(s, a)
  {
    DemandExactly(SearchGeometry(s, a), a.maxSeq, n, k, ni);
  }

  // ---- the verdict ----------------------------------------------------------------

  /** Everything committed on the GPU. */
  function Committed(s: Shape, a: Ask): nat
    requires Sizable(s)
  {
    a.pinned + a.draft + a.margin + a.scratch + a.experts + KdaBytes(s, a) + IndexerShareBytes(s, a)
    + KvPoolPages(s, a) * s.bytesPerPage
  }

  /**
   * The three refusals, in order: the granted pages are fewer than the requests'
   * even shares; of several requests the pool does not hold the sum; what is
   * committed exceeds the usable bytes. An accepted plan reports these numbers.
   */
  lemma VerdictExactly(s: Shape, a: Ask, n: nat, share: nat)
    requires Sizable(s) && JustCovers(n, s.page, a.maxSeq)
    requires var shards := if a.tp >= 2 && a.sharded then a.tp else 1;
      share * shards <= n < (share + 1) * shards
    ensures var pages := KvPoolPages(s, a);
      var pool := PoolPages(s, a, pages * s.bytesPerPage);
      var demand := Demand(SearchGeometry(s, a), a.maxSeq);
      match Fit(s, a)
      case Err(KvDemandExceedsVram(floor, granted)) =>
        floor == a.conc * share * s.kvLayers && granted == pages < floor
      case Err(ConcAskExceedsPool(conc, each, held)) =>
        && pages >= a.conc * share * s.kvLayers
        && conc == a.conc >= 2 && each == demand && 0 < held == pool < conc * each
      case Err(CarveOverflow(committed, usable)) =>
        && pages >= a.conc * share * s.kvLayers && (a.conc >= 2 ==> pool == 0 || pool >= a.conc * demand)
        && committed == Committed(s, a) > usable == a.usable
      case Err(_) => false
      case Ok(p) =>
        && pages >= a.conc * share * s.kvLayers && (a.conc >= 2 ==> pool == 0 || pool >= a.conc * demand)
        && Committed(s, a) <= a.usable
        && p.kda == KdaBytes(s, a) && p.idxShare == IndexerShareBytes(s, a) && p.kvPool == pages * s.bytesPerPage
        && (p.kdaMapped <==> s.linearLayers > 0 && s.stateRow && s.hasDsa)
        && p.poolPages == pool && p.demandPages == demand
        && p.kvPages == KvPages(SearchGeometry(s, a), a.maxSeq) && p.statePages == StatePages(s, a)
        && p.admissible == AdmissibleTokens(SearchGeometry(s, a), pool)
  {
    FloorExactly(a.maxSeq, s.page, Shards(a), a.conc, s.kvLayers, n, share);
  }
}
