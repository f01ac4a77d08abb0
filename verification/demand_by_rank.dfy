// What a request costs, counted from its tokens: which rank each KV page and
// each indexer page falls to, and how many the worst rank gets
// (python/autoconfig/sizing.py). Nothing here uses the code's closed forms; they
// are proved equal to the counts.
module DemandByRank {
  import opened IntMath
  import opened KvSharding
  import opened Admission

  /** n pages of so many tokens are just enough for tokens. */
  predicate JustCovers(n: nat, page: nat, tokens: nat) {
    tokens <= n * page && (n > 0 ==> (n - 1) * page < tokens)
  }

  lemma CeilCovers(n: nat, page: nat, tokens: nat)
    requires page > 0
    ensures JustCovers(n, page, tokens) <==> n == CeilDiv(tokens, page)
  {
    var c := CeilDiv(tokens, page);
    DivReaches(tokens + page - 1, page, c);
    DivReaches(tokens + page - 1, page, c + 1);
    assert (c + 1) * page == c * page + page;
    if c > 0 {
      assert (c - 1) * page == c * page - page;
    }
    if JustCovers(n, page, tokens) && n < c {
      MulLe(n, c - 1, page);
    }
    if JustCovers(n, page, tokens) && n > c {
      MulLe(c, n - 1, page);
    }
  }

  /** k pages make a chunk: as many whole pages as its tokens have room for, but one at least. */
  predicate IsChunk(k: nat, page: nat, chunkTokens: nat) {
    k > 0 && chunkTokens < (k + 1) * page && (k * page <= chunkTokens || k == 1)
  }

  lemma ChunkExactly(k: nat, page: nat, chunkTokens: nat)
    requires page > 0
    ensures IsChunk(k, page, chunkTokens) <==> k == PagesPerChunk(page, chunkTokens)
  {
    DivReaches(chunkTokens, page, k);
    DivReaches(chunkTokens, page, k + 1);
    var c := chunkTokens / page;
    DivReaches(chunkTokens, page, c);
    DivReaches(chunkTokens, page, c + 1);
  }

  /** A chunk of whole pages is just those. */
  lemma WholeChunk(k: nat, page: nat)
    requires page > 0 && k > 0
    ensures IsChunk(k, page, k * page)
  {
    assert (k + 1) * page == k * page + page;
  }

  /** What one rank alone would hold is everything. */
  lemma {:induction false} OneRankHoldsAll(n: nat, chunk: nat)
    requires chunk > 0
    ensures Held(n, chunk, 1, 0) == n
  {
    if n > 0 {
      OneRankHoldsAll(n - 1, chunk);
    }
  }

  /** The rank a token goes to when chunks of tokens are dealt out in turn. */
  function RankOfToken(token: nat, chunkTokens: nat, shards: nat): nat
    requires chunkTokens > 0 && shards > 0
  {
    token / chunkTokens % shards
  }

  /** Dealing pages is dealing tokens: a page and all its tokens go to one rank. */
  lemma PagesFollowTokens(p: nat, offset: nat, k: nat, page: nat, shards: nat)
    requires page > 0 && k > 0 && shards > 0 && offset < page
    ensures k * page > 0 && p * page + offset >= 0
    ensures RankOfToken(p * page + offset, k * page, shards) == OwnerOf(p, k, shards)
  {
    MulLe(1, k, page);
    var q, r := p / k, p % k;
    assert p * page == q * (k * page) + r * page;
    MulLe(r + 1, k, page);
    assert (r + 1) * page == r * page + page;
    DivModUnique(p * page + offset, q, k * page, r * page + offset);
  }

  /** The KV pages of one layer and one sequence are rank 0's, of pages dealt out chunk by chunk. */
  lemma SequencePagesExactly(tokens: nat, page: nat, shard: nat, chunkTokens: nat, n: nat, k: nat)
    requires page > 0 && JustCovers(n, page, tokens) && IsChunk(k, page, chunkTokens)
    ensures SequencePages(tokens, page, shard, chunkTokens) == Held(n, k, Max(1, shard), 0)
  {
    CeilCovers(n, page, tokens);
    ChunkExactly(k, page, chunkTokens);
    if shard > 1 {
      Rank0IsExact(n, k, shard);
    } else {
      OneRankHoldsAll(n, k);
    }
  }

  /** Hence no rank holds more, over all layers. */
  lemma NoRankHoldsMore(g: Geometry, tokens: nat, n: nat, k: nat, rank: nat)
    requires g.page > 0 && JustCovers(n, g.page, tokens) && IsChunk(k, g.page, g.chunkTokens) && rank < Max(1, g.shard)
    ensures Held(n, k, Max(1, g.shard), rank) * g.layers <= KvPages(g, tokens)
    ensures Held(n, k, Max(1, g.shard), 0) * g.layers == KvPages(g, tokens)
  {
    SequencePagesExactly(tokens, g.page, g.shard, g.chunkTokens, n, k);
    var shards: nat := Max(1, g.shard);
    Rank0IsWorst(n, k, shards, rank);
    Rank0IsExact(n, k, shards);
    MulLe(Held(n, k, shards, rank), Held(n, k, shards, 0), g.layers);
  }

  /** Indexer pages are dealt out one by one, and rank 0 has the most of them. */
  lemma IndexerPagesExactly(tokens: nat, indexerPage: nat, shard: nat, n: nat)
    requires indexerPage > 0 && JustCovers(n, indexerPage, tokens)
    ensures IndexerPages(tokens, indexerPage, shard) == Held(n, 1, Max(1, shard), 0)
  {
    CeilCovers(n, indexerPage, tokens);
    if shard > 1 {
      Rank0IsExact(n, 1, shard);
      RoundRobin(n, shard);
    } else {
      OneRankHoldsAll(n, 1);
    }
  }

  lemma RoundRobin(n: nat, shards: nat)
    requires shards > 0
    ensures Rank0Pages(n, 1, shards) == CeilDiv(n, shards)
  {
    CeilDivMultiple(n / shards, n % shards, shards);
  }

  /**
   * The whole demand of one request: for each KV layer rank 0's pages, for each
   * indexer layer rank 0's indexer pages at a slab each, and the state. The
   * indexer counts only when it has layers, pages and slabs.
   */
  lemma DemandExactly(g: Geometry, tokens: nat, n: nat, k: nat, ni: nat)
    requires g.page > 0 && JustCovers(n, g.page, tokens) && IsChunk(k, g.page, g.chunkTokens)
    requires g.indexerPage > 0 ==> JustCovers(ni, g.indexerPage, tokens)
    ensures Demand(g, tokens) == g.layers * Held(n, k, Max(1, g.shard), 0)
      + (if g.indexerPage > 0 then g.dsaLayers * g.pagesPerSlab * Held(ni, 1, Max(1, g.indexerShard), 0) else 0)
      + g.statePages
  {
    SequencePagesExactly(tokens, g.page, g.shard, g.chunkTokens, n, k);
    if g.indexerPage > 0 {
      IndexerPagesExactly(tokens, g.indexerPage, g.indexerShard, ni);
      Reordered(Held(ni, 1, Max(1, g.indexerShard), 0), g.dsaLayers, g.pagesPerSlab);
    }
  }

  lemma Reordered(h: nat, layers: nat, pages: nat)
    ensures h * layers * pages == layers * pages * h
    ensures layers == 0 || pages == 0 ==> h * layers * pages == 0
  {
  }

  /** The pool is the largest that the requests need and the free bytes hold. */
  lemma PoolIsGreatest(maxSeq: nat, page: nat, shard: nat, chunkTokens: nat, conc: nat, layers: nat, available: int,
                       bytesPerPage: nat, n: nat, k: nat, q: nat)
    requires page > 0 && bytesPerPage > 0 && JustCovers(n, page, maxSeq) && IsChunk(k, page, chunkTokens)
    ensures q <= AutoKvPages(maxSeq, page, shard, chunkTokens, conc, layers, available, bytesPerPage)
      <==> q == 0 || (q <= conc * Held(n, k, Max(1, shard), 0) * layers && q * bytesPerPage <= available)
  {
    SequencePagesExactly(maxSeq, page, shard, chunkTokens, n, k);
    DivReaches(available, bytesPerPage, q);
  }

  /** What the solver compares it with: every request's pages shared out evenly, rounded down. */
  lemma FloorExactly(maxSeq: nat, page: nat, shard: nat, conc: nat, layers: nat, n: nat, share: nat)
    requires page > 0 && JustCovers(n, page, maxSeq)
    requires share * Max(1, shard) <= n < (share + 1) * Max(1, shard)
    ensures FloorDemand(maxSeq, page, shard, conc, layers) == conc * share * layers
  {
    CeilCovers(n, page, maxSeq);
    if shard > 1 {
      DivReaches(n, shard, share);
      DivReaches(n, shard, share + 1);
    }
  }
}
