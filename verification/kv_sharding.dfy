// How many KV pages one rank holds when pages are dealt out round-robin by
// chunk (python/autoconfig/sizing.py, auto_kv_pages and the demand formula).
module KvSharding {
  import opened IntMath

  /** The rank that page number page goes to: chunk pages at a time, rank after rank. */
  function OwnerOf(page: nat, chunk: nat, shards: nat): nat
    requires chunk > 0 && shards > 0
  {
    page / chunk % shards
  }

  /** The pages among the first n that rank owns, counted one by one. */
  function Held(n: nat, chunk: nat, shards: nat, rank: nat): nat
    requires chunk > 0 && shards > 0
  {
    if n == 0 then 0
    else Held(n - 1, chunk, shards, rank) + if OwnerOf(n - 1, chunk, shards) == rank then 1 else 0
  }

  /** The code's closed form for rank 0. */
  function Rank0Pages(n: nat, chunk: nat, shards: nat): nat
    requires chunk > 0 && shards > 0
  {
    var cycle := chunk * shards;
    n / cycle * chunk + Min(n % cycle, chunk)
  }

  /** What an incomplete cycle of m pages adds to the rank whose chunk starts base pages into the cycle. */
  function Part(m: nat, base: nat, chunk: nat): nat {
    Max(0, Min(m - base, chunk))
  }

  lemma PageOwner(n: nat, chunk: nat, shards: nat, q: nat, m: nat)
    requires chunk > 0 && shards > 0 && n == q * (chunk * shards) + m && m < chunk * shards
    ensures OwnerOf(n, chunk, shards) == m / chunk < shards
  {
    var c, r := m / chunk, m % chunk;
    assert m == c * chunk + r;
    assert c < shards by {
      if c >= shards {
        MulLe(shards, c, chunk);
      }
    }
    assert n == (q * shards + c) * chunk + r;
    DivModUnique(n, q * shards + c, chunk, r);
    DivModUnique(n / chunk, q, shards, c);
  }

  /** Page m of a cycle falls to rank exactly when it lies in rank's chunk of that cycle. */
  lemma ChunkBounds(m: nat, chunk: nat, shards: nat, rank: nat)
    requires chunk > 0 && rank < shards
    ensures rank * chunk + chunk <= chunk * shards
    ensures m / chunk == rank <==> rank * chunk <= m < rank * chunk + chunk
  {
    MulLe(rank + 1, shards, chunk);
    assert (rank + 1) * chunk == rank * chunk + chunk;
    DivReaches(m, chunk, rank);
    DivReaches(m, chunk, rank + 1);
  }

  lemma NextPage(n: nat, cycle: nat, q: nat, m: nat)
    requires cycle > 0 && n == q * cycle + m && m < cycle
    ensures if m + 1 == cycle then (n + 1) / cycle == q + 1 && (n + 1) % cycle == 0
            else (n + 1) / cycle == q && (n + 1) % cycle == m + 1
  {
    if m + 1 == cycle {
      assert (q + 1) * cycle == q * cycle + cycle;
      DivModUnique(n + 1, q + 1, cycle, 0);
    } else {
      DivModUnique(n + 1, q, cycle, m + 1);
    }
  }

  /** Whole cycles, and the part of the last one that falls in the chunk starting at base. */
  function ClosedForm(n: nat, chunk: nat, cycle: nat, base: nat): nat
    requires cycle > 0
  {
    n / cycle * chunk + Part(n % cycle, base, chunk)
  }

  lemma ClosedFormStep(n: nat, chunk: nat, cycle: nat, base: nat)
    requires cycle > 0 && base + chunk <= cycle
    ensures ClosedForm(n + 1, chunk, cycle, base)
         == ClosedForm(n, chunk, cycle, base) + if base <= n % cycle < base + chunk then 1 else 0
  {
    var q, m := n / cycle, n % cycle;
    NextPage(n, cycle, q, m);
    assert (q + 1) * chunk == q * chunk + chunk;
  }

  lemma OwnerIsChunk(n: nat, chunk: nat, shards: nat, rank: nat, cycle: nat, base: nat)
    requires chunk > 0 && rank < shards && cycle == chunk * shards && base == rank * chunk
    ensures cycle > 0 && base + chunk <= cycle
    ensures OwnerOf(n, chunk, shards) == rank <==> base <= n % cycle < base + chunk
  {
    MulLe(1, shards, chunk);
    PageOwner(n, chunk, shards, n / cycle, n % cycle);
    ChunkBounds(n % cycle, chunk, shards, rank);
  }

  lemma {:induction false} HeldIsClosedForm(n: nat, chunk: nat, shards: nat, rank: nat, cycle: nat, base: nat)
    requires chunk > 0 && rank < shards && cycle == chunk * shards && base == rank * chunk
    ensures cycle > 0 && Held(n, chunk, shards, rank) == ClosedForm(n, chunk, cycle, base)
    decreases n
  {
    if n == 0 {
      OwnerIsChunk(0, chunk, shards, rank, cycle, base);
      DivModUnique(0, 0, cycle, 0);
    } else {
      OwnerIsChunk(n - 1, chunk, shards, rank, cycle, base);
      HeldIsClosedForm(n - 1, chunk, shards, rank, cycle, base);
      ClosedFormStep(n - 1, chunk, cycle, base);
    }
  }

  /** Every rank's count in closed form. */
  lemma HeldClosedForm(n: nat, chunk: nat, shards: nat, rank: nat)
    requires chunk > 0 && rank < shards
    ensures chunk * shards > 0 && rank * chunk >= 0
    ensures Held(n, chunk, shards, rank) == ClosedForm(n, chunk, chunk * shards, rank * chunk)
  {
    MulLe(0, rank, chunk);
    HeldIsClosedForm(n, chunk, shards, rank, chunk * shards, rank * chunk);
  }

  /** The closed form used for sizing is exactly rank 0's count. */
  lemma Rank0IsExact(n: nat, chunk: nat, shards: nat)
    requires chunk > 0 && shards > 0
    ensures Rank0Pages(n, chunk, shards) == Held(n, chunk, shards, 0)
  {
    HeldClosedForm(n, chunk, shards, 0);
  }

  /** Rank 0 is the worst rank: no rank ever holds more. */
  lemma Rank0IsWorst(n: nat, chunk: nat, shards: nat, rank: nat)
    requires chunk > 0 && rank < shards
    ensures Held(n, chunk, shards, rank) <= Rank0Pages(n, chunk, shards)
  {
    HeldClosedForm(n, chunk, shards, rank);
    assert rank * chunk >= 0;
  }

  /** All ranks below k together. */
  function HeldBelow(n: nat, chunk: nat, shards: nat, k: nat): nat
    requires chunk > 0 && shards > 0
  {
    if k == 0 then 0 else HeldBelow(n, chunk, shards, k - 1) + Held(n, chunk, shards, k - 1)
  }

  lemma {:induction false} OnePageMore(n: nat, chunk: nat, shards: nat, k: nat)
    requires chunk > 0 && shards > 0
    ensures HeldBelow(n + 1, chunk, shards, k)
         == HeldBelow(n, chunk, shards, k) + if OwnerOf(n, chunk, shards) < k then 1 else 0
  {
    if k > 0 {
      OnePageMore(n, chunk, shards, k - 1);
    }
  }

  /** Dealing out loses nothing: the ranks' counts sum to n. */
  lemma {:induction false} RanksSumToAll(n: nat, chunk: nat, shards: nat)
    requires chunk > 0 && shards > 0
    ensures HeldBelow(n, chunk, shards, shards) == n
  {
    if n == 0 {
      NoneHeld(chunk, shards, shards);
    } else {
      RanksSumToAll(n - 1, chunk, shards);
      OnePageMore(n - 1, chunk, shards, shards);
    }
  }

  lemma {:induction false} NoneHeld(chunk: nat, shards: nat, k: nat)
    requires chunk > 0 && shards > 0
    ensures HeldBelow(0, chunk, shards, k) == 0
  {
    if k > 0 {
      NoneHeld(chunk, shards, k - 1);
    }
  }

  lemma {:induction false} BelowAtMost(n: nat, chunk: nat, shards: nat, k: nat)
    requires chunk > 0 && shards > 0 && k <= shards
    ensures HeldBelow(n, chunk, shards, k) <= k * Rank0Pages(n, chunk, shards)
  {
    if k > 0 {
      BelowAtMost(n, chunk, shards, k - 1);
      Rank0IsWorst(n, chunk, shards, k - 1);
      assert k * Rank0Pages(n, chunk, shards) == (k - 1) * Rank0Pages(n, chunk, shards) + Rank0Pages(n, chunk, shards);
    }
  }

  /** Rank 0 holds at least its even share, so never less than the floor the solver compares with. */
  lemma Rank0AtLeastShare(n: nat, chunk: nat, shards: nat)
    requires chunk > 0 && shards > 0
    ensures shards * Rank0Pages(n, chunk, shards) >= n
    ensures Rank0Pages(n, chunk, shards) >= n / shards
  {
    var r := Rank0Pages(n, chunk, shards);
    RanksSumToAll(n, chunk, shards);
    BelowAtMost(n, chunk, shards, shards);
    DivAtMost(n, shards, r);
  }

  lemma {:induction false} HeldMonotone(a: nat, b: nat, chunk: nat, shards: nat, rank: nat)
    requires chunk > 0 && shards > 0 && a <= b
    ensures Held(a, chunk, shards, rank) <= Held(b, chunk, shards, rank)
    decreases b
  {
    if a < b {
      HeldMonotone(a, b - 1, chunk, shards, rank);
    }
  }

  lemma Rank0Monotone(a: nat, b: nat, chunk: nat, shards: nat)
    requires chunk > 0 && shards > 0 && a <= b
    ensures Rank0Pages(a, chunk, shards) <= Rank0Pages(b, chunk, shards)
  {
    Rank0IsExact(a, chunk, shards);
    Rank0IsExact(b, chunk, shards);
    HeldMonotone(a, b, chunk, shards, 0);
  }
}
