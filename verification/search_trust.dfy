// For which models the admissible-context search can be trusted
// (python/autoconfig/sizing.py, admissible_context_tokens): its upper end grows
// with the pool, and is high enough for every pool exactly when demand grows at
// least as fast.
module SearchTrust {
  import opened IntMath
  import opened KvSharding
  import opened Admission

  // ---- the two rates ----------------------------------------------------------

  function Shards(g: Geometry): nat {
    Max(1, g.shard)
  }

  /** Tokens that one more indexer page of the worst rank covers; 1 without an indexer. */
  function Unit(g: Geometry): (u: nat)
    ensures u > 0
  {
    if HasIndexer(g) then IndexerUnit(g.indexerPage, Max(1, g.indexerShard)) else 1
  }

  function IndexerUnit(indexerPage: nat, shards: nat): (u: nat)
    requires indexerPage > 0 && shards > 0
    ensures u > 0
  {
    MulLe(1, shards, indexerPage);
    indexerPage * shards
  }

  /** KV pages that one indexer page costs. */
  function Cost(g: Geometry): nat {
    if HasIndexer(g) then g.dsaLayers * g.pagesPerSlab else 0
  }

  /** Over Shards * Unit pages of context, what the demand grows by: KV, then indexer. */
  function Growth(g: Geometry): nat {
    g.layers * Unit(g) + g.page * (Cost(g) * Shards(g))
  }

  /** Over the same stretch, what the search's upper end allows for: one page each. */
  function Allowance(g: Geometry): (n: nat)
    ensures n > 0
  {
    MulLe(1, Shards(g), Unit(g));
    Shards(g) * Unit(g)
  }

  /** Demand keeps pace with the upper end. */
  predicate KeepsPace(g: Geometry) {
    Growth(g) >= Allowance(g)
  }

  // ---- bounds on the rounded terms ----------------------------------------------

  lemma CeilBounds(a: nat, b: nat)
    requires b > 0
    ensures a <= CeilDiv(a, b) * b <= a + b
  {
  }

  /** Rank 0 holds an even share, give or take one chunk. */
  lemma Rank0Bounds(n: nat, chunk: nat, shards: nat)
    requires chunk > 0 && shards > 0
    ensures n <= Rank0Pages(n, chunk, shards) * shards <= n + chunk * shards
  {
    Rank0AtLeastShare(n, chunk, shards);
    var cycle := chunk * shards;
    MulLe(1, shards, chunk);
    var q := n / cycle;
    MulLe(Rank0Pages(n, chunk, shards), q * chunk + chunk, shards);
    assert (q * chunk + chunk) * shards == q * cycle + cycle;
    DivReaches(n, cycle, q);
  }

  lemma KvBounds(g: Geometry, tokens: nat)
    requires g.page > 0
    ensures var n, p := CeilDiv(tokens, g.page), SequencePages(tokens, g.page, g.shard, g.chunkTokens);
      n <= p * Shards(g) <= n + PagesPerChunk(g.page, g.chunkTokens) * Shards(g)
  {
    if g.shard > 1 {
      Rank0Bounds(CeilDiv(tokens, g.page), PagesPerChunk(g.page, g.chunkTokens), g.shard);
    }
  }

  lemma IndexerBounds(tokens: nat, indexerPage: nat, shards: nat, n: nat, i: nat)
    requires indexerPage > 0 && shards > 0 && n == CeilDiv(tokens, indexerPage) && i == CeilDiv(n, shards)
    ensures tokens <= i * IndexerUnit(indexerPage, shards) <= tokens + 2 * IndexerUnit(indexerPage, shards)
  {
    CeilBounds(tokens, indexerPage);
    CeilBounds(n, shards);
    MulLe(n, i * shards, indexerPage);
    MulLe(i * shards, n + shards, indexerPage);
    MulLe(1, shards, indexerPage);
    assert i * shards * indexerPage == i * (indexerPage * shards);
    assert (n + shards) * indexerPage == n * indexerPage + indexerPage * shards;
  }

  lemma CeilByOne(n: nat)
    ensures CeilDiv(n, 1) == n
  {
  }

  /** The indexer's part of the demand, as some number of indexer pages within a page or two of the tokens. */
  lemma ShareBounds(g: Geometry, tokens: nat) returns (i: nat)
    ensures IndexerShare(g, tokens) == i * Cost(g)
    ensures tokens <= i * Unit(g) <= tokens + 2 * Unit(g)
  {
    if HasIndexer(g) {
      i := IndexerPages(tokens, g.indexerPage, g.indexerShard);
      var n := CeilDiv(tokens, g.indexerPage);
      CeilByOne(n);
      IndexerBounds(tokens, g.indexerPage, Max(1, g.indexerShard), n, i);
      assert i * g.dsaLayers * g.pagesPerSlab == i * (g.dsaLayers * g.pagesPerSlab);
    } else {
      i := tokens;
    }
  }

  // ---- demand against the upper end -----------------------------------------------

  lemma Regroup(a: nat, b: nat, c: nat, d: nat)
    ensures (a * b) * (c * d) == (a * c) * (b * d)
  {
    assert (a * b) * (c * d) == a * b * c * d;
    assert (a * c) * (b * d) == a * c * b * d;
  }

  /** Both parts of the demand, scaled by the allowance, between two linear bounds. */
  lemma ScaledDemand(g: Geometry, tokens: nat)
    requires g.page > 0
    ensures var n, kv, idx, chunk :=
        CeilDiv(tokens, g.page), g.layers * Unit(g), Cost(g) * Shards(g), PagesPerChunk(g.page, g.chunkTokens);
      && n * kv + tokens * idx + g.statePages * Allowance(g) <= Demand(g, tokens) * Allowance(g)
      && Demand(g, tokens) * Allowance(g)
         <= (n + chunk * Shards(g)) * kv + (tokens + 2 * Unit(g)) * idx + g.statePages * Allowance(g)
  {
    var n, s, u := CeilDiv(tokens, g.page), Shards(g), Unit(g);
    var p, chunk := SequencePages(tokens, g.page, g.shard, g.chunkTokens), PagesPerChunk(g.page, g.chunkTokens);
    KvBounds(g, tokens);
    var i := ShareBounds(g, tokens);
    Parts(p, g.layers, i, Cost(g), s, u, g.statePages);
    MulLe(n, p * s, g.layers * u);
    MulLe(p * s, n + chunk * s, g.layers * u);
    MulLe(tokens, i * u, Cost(g) * s);
    MulLe(i * u, tokens + 2 * u, Cost(g) * s);
  }

  lemma Parts(p: nat, layers: nat, i: nat, cost: nat, s: nat, u: nat, state: nat)
    ensures (p * layers + i * cost + state) * (s * u) == (p * s) * (layers * u) + (i * u) * (cost * s) + state * (s * u)
  {
    Regroup(p, layers, s, u);
    Regroup(i, cost, u, s);
    assert u * s == s * u;
    assert (p * layers + i * cost + state) * (s * u)
      == (p * layers) * (s * u) + (i * cost) * (s * u) + state * (s * u);
  }

  lemma Distributes(n: nat, page: nat, kv: nat, idx: nat)
    ensures n * kv + n * page * idx == n * (kv + page * idx)
  {
    assert n * page * idx == n * (page * idx);
  }

  lemma CancelLess(a: nat, b: nat, c: nat)
    requires c > 0 && a * c < b * c
    ensures a < b
  {
    if a >= b {
      MulLe(b, a, c);
    }
  }

  /** Where demand keeps pace, one token past the upper end never fits. */
  lemma PaceSuffices(g: Geometry, pool: nat)
    requires g.page > 0 && KeepsPace(g)
    ensures Demand(g, SearchBound(g, pool) + 1) > pool
  {
    var past, kv, idx := SearchBound(g, pool) + 1, g.layers * Unit(g), Cost(g) * Shards(g);
    PagesPastBound(g, pool);
    ScaledDemand(g, past);
    assert past == (pool + 1) * g.page + 1;
    MulLe(pool + 1, pool + 2, kv);
    MulLe((pool + 1) * g.page, past, idx);
    Distributes(pool + 1, g.page, kv, idx);
    MulLe(Allowance(g), Growth(g), pool + 1);
    MulSucc(pool, Allowance(g));
    assert (pool + 1) * Allowance(g) <= Demand(g, past) * Allowance(g);
    CancelLess(pool, Demand(g, past), Allowance(g));
  }

  function Ahead(slack: nat, kv: nat, page: nat, more: nat, idx: nat): (n: nat) {
    MulLe(0, 2 + slack, kv);
    MulLe(0, page + 1 + more, idx);
    (2 + slack) * kv + (page + 1 + more) * idx
  }

  function StateShare(g: Geometry): nat {
    MulLe(0, g.statePages, Allowance(g));
    g.statePages * Allowance(g)
  }

  /** What the demand is ahead of its rate at most, at any length. */
  function HeadStart(g: Geometry): nat
    requires g.page > 0
  {
    Ahead(PagesPerChunk(g.page, g.chunkTokens) * Shards(g), g.layers * Unit(g), g.page, 2 * Unit(g),
          Cost(g) * Shards(g)) + StateShare(g)
  }

  lemma EmptyRequest(g: Geometry)
    requires g.page > 0
    ensures Demand(g, 0) == g.statePages
  {
    DivModUnique(g.page - 1, 0, g.page, g.page - 1);
    if g.shard > 1 {
      var chunk := PagesPerChunk(g.page, g.chunkTokens);
      MulLe(1, g.shard, chunk);
      DivModUnique(0, 0, chunk * g.shard, 0);
    }
    if HasIndexer(g) {
      NoPages(g.indexerPage);
      NoPages(Max(1, g.indexerShard));
    }
  }

  lemma NoPages(b: nat)
    requires b > 0
    ensures CeilDiv(0, b) == 0
  {
    DivModUnique(b - 1, 0, b, b - 1);
  }

  lemma Spread(pool: nat, page: nat, slack: nat, more: nat, kv: nat, idx: nat, state: nat)
    ensures (pool + 2 + slack) * kv + ((pool + 1) * page + 1 + more) * idx + state
      == pool * (kv + page * idx) + ((2 + slack) * kv + (page + 1 + more) * idx + state)
  {
    assert (pool + 2 + slack) * kv == pool * kv + (2 + slack) * kv;
    assert ((pool + 1) * page + 1 + more) * idx == pool * page * idx + (page + 1 + more) * idx;
    Distributes(pool, page, kv, idx);
  }

  /** Where demand falls behind, a pool one past the head start holds a request past the upper end. */
  lemma SlowDemandDefeats(g: Geometry)
    requires g.page > 0 && !KeepsPace(g)
    ensures var pool := HeadStart(g) + 1;
      Demand(g, 0) <= pool && Demand(g, SearchBound(g, pool) + 1) <= pool
  {
    var pool := HeadStart(g) + 1;
    var past, kv, idx := SearchBound(g, pool) + 1, g.layers * Unit(g), Cost(g) * Shards(g);
    var slack := PagesPerChunk(g.page, g.chunkTokens) * Shards(g);
    EmptyRequest(g);
    MulLe(1, Allowance(g), g.statePages);
    PagesPastBound(g, pool);
    ScaledDemand(g, past);
    assert past == (pool + 1) * g.page + 1;
    Spread(pool, g.page, slack, 2 * Unit(g), kv, idx, g.statePages * Allowance(g));
    assert Demand(g, past) * Allowance(g) <= pool * Growth(g) + HeadStart(g);
    MulLe(Growth(g) + 1, Allowance(g), pool);
    MulSucc(Growth(g), pool);
    MulSucc(pool, Allowance(g));
    CancelLess(Demand(g, past), pool + 1, Allowance(g));
  }

  /**
   * Exactly when the search can be trusted. Its answer is the ceiling, for every
   * pool that holds an empty request, if and only if over the same stretch of
   * context the demand grows at least as fast as the search's upper end.
   */
  lemma TrustedForEveryPool(g: Geometry)
    requires g.page > 0 && g.layers > 0
    ensures (forall pool: int :: pool > 0 && Demand(g, 0) <= pool ==> IsCeiling(g, pool, AdmissibleTokens(g, pool)))
      <==> KeepsPace(g)
  {
    if KeepsPace(g) {
      forall pool: int | pool > 0 && Demand(g, 0) <= pool ensures IsCeiling(g, pool, AdmissibleTokens(g, pool)) {
        SearchFinds(g, pool);
        PaceSuffices(g, pool);
      }
    } else {
      var pool := HeadStart(g) + 1;
      SlowDemandDefeats(g);
      SearchFinds(g, pool);
      assert !IsCeiling(g, pool, AdmissibleTokens(g, pool));
    }
  }

  /** Without an indexer that is: no more shards than KV layers. */
  lemma PaceWithoutIndexer(g: Geometry)
    requires !HasIndexer(g) && g.layers > 0
    ensures KeepsPace(g) <==> g.shard <= g.layers
  {
  }

  /** With one, no more shards than KV layers is still enough. */
  lemma FewShardsKeepPace(g: Geometry)
    requires g.layers > 0 && g.shard <= g.layers
    ensures KeepsPace(g)
  {
    MulLe(Shards(g), g.layers, Unit(g));
  }
}
