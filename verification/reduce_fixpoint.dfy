// Which asks the reduce loop brings to a fixed point (python/autoconfig/solver.py,
// solve): a length that every reported ceiling reaches. Each round lowers the ask
// by a page at least, and the loop has four.
module ReduceFixpoint {
  import opened IntMath
  import opened Sequences
  import opened Admission
  import SearchTrust
  import opened UntieredFit
  import opened ReduceLoop

  // ---- the loop as a descent of one number ------------------------------------------

  /** The ceiling reported at a length. */
  type Ceiling = nat -> nat

  predicate Fixed(c: Ceiling, m: nat) {
    c(m) >= m
  }

  /** One round. */
  function Lowered(c: Ceiling, minSeq: nat, page: nat, m: nat): nat
    requires page > 0
  {
    if Fixed(c, m) then m else NextAsk(c(m), minSeq, page)
  }

  /** The length after some rounds. */
  function After(c: Ceiling, minSeq: nat, page: nat, m: nat, rounds: nat): nat
    requires page > 0
    decreases rounds
  {
    if rounds == 0 then m else After(c, minSeq, page, Lowered(c, minSeq, page, m), rounds - 1)
  }

  /** From minSeq to top no ceiling is below minSeq, they rise with the ask, and what is below a fixed ask is fixed. */
  ghost predicate Orderly(c: Ceiling, minSeq: nat, top: nat) {
    && (forall m: nat :: minSeq <= m <= top ==> minSeq <= c(m))
    && (forall a: nat, b: nat :: minSeq <= a <= b <= top ==> c(a) <= c(b) && (Fixed(c, b) ==> Fixed(c, a)))
  }

  lemma LoweredWithin(c: Ceiling, minSeq: nat, page: nat, top: nat, m: nat)
    requires page > 0 && Orderly(c, minSeq, top) && minSeq <= m <= top
    ensures minSeq <= Lowered(c, minSeq, page, m) <= m
    ensures Fixed(c, m) || Lowered(c, minSeq, page, m) < m
  {
    if !Fixed(c, m) {
      NextAskLowers(c(m), minSeq, page, m);
    }
  }

  lemma {:induction false} FixedStays(c: Ceiling, minSeq: nat, page: nat, m: nat, rounds: nat)
    requires page > 0 && Fixed(c, m)
    ensures After(c, minSeq, page, m, rounds) == m
    decreases rounds
  {
    if rounds > 0 {
      FixedStays(c, minSeq, page, m, rounds - 1);
    }
  }

  /** Pages that reach above low at m. */
  function PagesAbove(m: nat, low: nat, page: nat): int
    requires page > 0
  {
    CeilDiv(m, page) - low / page
  }

  lemma PagesAboveSome(m: nat, low: nat, page: nat)
    requires page > 0 && low < m
    ensures PagesAbove(m, low, page) > 0
  {
    DivLe(low, m - 1, page);
    LastPage(m, page);
  }

  lemma LastPage(m: nat, page: nat)
    requires page > 0 && m > 0
    ensures CeilDiv(m, page) == (m - 1) / page + 1
  {
    DivModUnique(m + page - 1, (m - 1) / page + 1, page, (m - 1) % page);
  }

  lemma WholePages(k: nat, page: nat)
    requires page > 0
    ensures CeilDiv(k * page, page) == k
  {
    CeilDivMultiple(k, 0, page);
  }

  /** A round that lowers the ask, not just to the floor, takes a page off. */
  lemma PageGone(ceiling: nat, minSeq: nat, page: nat, m: nat, low: nat)
    requires page > 0 && ceiling < m && NextAsk(ceiling, minSeq, page) > minSeq
    ensures PagesAbove(NextAsk(ceiling, minSeq, page), low, page) < PagesAbove(m, low, page)
  {
    WholePages(ceiling / page, page);
    DivLe(ceiling, m - 1, page);
    LastPage(m, page);
  }

  /** At most a round for each page above a fixed point leads to one. */
  lemma {:induction false} DescentSettles(c: Ceiling, minSeq: nat, page: nat, top: nat, low: nat, m: nat, rounds: nat)
    requires page > 0 && Orderly(c, minSeq, top) && minSeq <= low <= top && minSeq <= m <= top && Fixed(c, low)
    requires m <= low || PagesAbove(m, low, page) <= rounds
    ensures Fixed(c, After(c, minSeq, page, m, rounds))
    decreases rounds
  {
    if Fixed(c, m) {
      FixedStays(c, minSeq, page, m, rounds);
    } else {
      PagesAboveSome(m, low, page);
      LoweredWithin(c, minSeq, page, top, m);
      var next := Lowered(c, minSeq, page, m);
      if next > minSeq {
        PageGone(c(m), minSeq, page, m, low);
      }
      DescentSettles(c, minSeq, page, top, low, next, rounds - 1);
    }
  }

  /** Where a longer ask ends at a fixed point, so does a shorter one. */
  lemma {:induction false} DescentBelow(c: Ceiling, minSeq: nat, page: nat, top: nat, a: nat, b: nat, rounds: nat)
    requires page > 0 && Orderly(c, minSeq, top) && minSeq <= a <= b <= top
    requires Fixed(c, After(c, minSeq, page, b, rounds))
    ensures Fixed(c, After(c, minSeq, page, a, rounds))
    decreases rounds
  {
    if Fixed(c, a) {
      FixedStays(c, minSeq, page, a, rounds);
    } else if rounds > 0 {
      LoweredWithin(c, minSeq, page, top, a);
      LoweredWithin(c, minSeq, page, top, b);
      NextAskRises(c(a), c(b), minSeq, page);
      DescentBelow(c, minSeq, page, top, Lowered(c, minSeq, page, a), Lowered(c, minSeq, page, b), rounds - 1);
    }
  }

  lemma NextAskRises(a: nat, b: nat, minSeq: nat, page: nat)
    requires page > 0 && a <= b
    ensures NextAsk(a, minSeq, page) <= NextAsk(b, minSeq, page)
  {
    DivLe(a, b, page);
    MulLe(a / page, b / page, page);
  }

  /** At every length from minSeq to top all GPUs report the one ceiling. */
  ghost predicate Reports(fit: FitAt, c: Ceiling, minSeq: nat, top: nat) {
    forall m: nat :: minSeq <= m <= top ==>
      fit(m).Ok? && fit(m).value != [] && forall x <- fit(m).value :: x == c(m)
  }

  lemma LeastOfOne(ceilings: seq<nat>, x: nat)
    requires ceilings != [] && forall y <- ceilings :: y == x
    ensures Least(ceilings) == x
  {
    assert ceilings[0] in ceilings;
  }

  /** The loop never refuses, and ends where the descent does. */
  lemma {:induction false} LoopDescends(fit: FitAt, c: Ceiling, minSeq: nat, page: nat, top: nat,
                                        tried: seq<nat>, rounds: nat)
    requires page > 0 && minSeq > 0 && Orderly(c, minSeq, top) && Reports(fit, c, minSeq, top)
    requires tried != [] && minSeq <= Last(tried) <= top
    ensures var r := Reduce(fit, minSeq, page, false, tried, fit(Last(tried)).value, rounds);
      && r.Ok? && r.value.tried != [] && Last(r.value.tried) == After(c, minSeq, page, Last(tried), rounds)
      && minSeq <= Last(r.value.tried) <= top && fit(Last(r.value.tried)) == Ok(r.value.ceilings)
    decreases rounds
  {
    var m := Last(tried);
    LeastOfOne(fit(m).value, c(m));
    if Fixed(c, m) {
      FixedStays(c, minSeq, page, m, rounds);
    } else if rounds > 0 {
      LoweredWithin(c, minSeq, page, top, m);
      LoopDescends(fit, c, minSeq, page, top, tried + [Lowered(c, minSeq, page, m)], rounds - 1);
    }
  }

  // ---- the ceilings of the concrete fit ---------------------------------------------

  /** The ceiling that any GPU with ample VRAM reports to one request of a length. */
  function CeilingOf(s: Shape, a: Ask, m: nat): nat
    requires Sizable(s)
  {
    var b := a.(maxSeq := m);
    AdmissibleTokens(SearchGeometry(s, b), PoolPages(s, b, KvNeed(s, b) * s.bytesPerPage))
  }

  function CeilingFor(s: Shape, a: Ask): Ceiling
    requires Sizable(s)
  {
    m => CeilingOf(s, a, m)
  }

  lemma OneCeiling(s: Shape, a: Ask, b: Ask)
    requires Sizable(s) && Ample(s, b) && Alike(a, b) && b.conc == 1
    ensures Fit(s, b).Ok? && Fit(s, b).value.admissible == CeilingOf(s, a, b.maxSeq)
  {
    var a' := a.(maxSeq := b.maxSeq);
    AmplePool(s, b);
    FitCases(s, b);
    OneSequence(s, a');
    OneSequence(s, b);
    assert KvNeed(s, a') == KvNeed(s, b) && SearchGeometry(s, a') == SearchGeometry(s, b);
    var kvPool := KvNeed(s, b) * s.bytesPerPage;
    assert PoolBytes(s, a', kvPool) == PoolBytes(s, b, kvPool);
  }

  lemma {:induction false} GroupReports(s: Shape, group: seq<Gpu>, a: Ask, m: nat)
    requires Sizable(s) && forall g <- group :: Alike(a, g.ask) && g.ask.conc == 1 && Ample(s, At(g, m))
    ensures GroupFit(s, group, m).Ok? && |GroupFit(s, group, m).value| == |group|
    ensures forall x <- GroupFit(s, group, m).value :: x == CeilingOf(s, a, m)
    decreases |group|
  {
    if group != [] {
      OneCeiling(s, a, At(group[0], m));
      GroupReports(s, group[1..], a, m);
    }
  }

  /** More KV bytes are a larger pool, whatever the split takes of them. */
  lemma PoolRises(s: Shape, a: Ask, short: nat, long: nat)
    requires Sizable(s) && a.conc == 1 && short <= long
    ensures var b, c := a.(maxSeq := short), a.(maxSeq := long);
      PoolPages(s, b, KvNeed(s, b) * s.bytesPerPage) <= PoolPages(s, c, KvNeed(s, c) * s.bytesPerPage)
  {
    var b, c := a.(maxSeq := short), a.(maxSeq := long);
    NeedMonotone(s, c, short);
    MulLe(KvNeed(s, b), KvNeed(s, c), s.bytesPerPage);
    IndexerBytesMonotone(s, c, short);
    OneSequence(s, b);
    OneSequence(s, c);
    var x, y := KvNeed(s, b) * s.bytesPerPage, KvNeed(s, c) * s.bytesPerPage;
    assert x - SpeculationBytes(x) <= y - SpeculationBytes(y);
    DivLe(PoolBytes(s, b, x), PoolBytes(s, c, y), s.bytesPerPage);
  }

  lemma CeilingRises(s: Shape, a: Ask, short: nat, long: nat)
    requires Sizable(s) && a.conc == 1 && short <= long
    requires SearchTrust.KeepsPace(SearchGeometry(s, a))
    ensures CeilingOf(s, a, short) <= CeilingOf(s, a, long)
  {
    var g, b, c := SearchGeometry(s, a), a.(maxSeq := short), a.(maxSeq := long);
    var p, q := PoolPages(s, b, KvNeed(s, b) * s.bytesPerPage), PoolPages(s, c, KvNeed(s, c) * s.bytesPerPage);
    PoolRises(s, a, short, long);
    assert SearchGeometry(s, b) == SearchGeometry(s, c) == g;
    var t := AdmissibleTokens(g, p);
    if t > 0 {
      AtLeastAsked(g, p, t);
      AtLeastAsked(g, q, t);
    }
  }

  /** A length is a fixed point exactly when the spare state covers the split at that length. */
  lemma FixedExactly(s: Shape, a: Ask, m: nat)
    requires Sizable(s) && a.conc == 1 && m > 0 && s.kvLayers > 0
    requires SearchTrust.KeepsPace(SearchGeometry(s, a))
    ensures CeilingOf(s, a, m) >= m <==> !SplitUncovered(s, a, m)
  {
    var b := a.(maxSeq := m);
    var g, pool := SearchGeometry(s, a), PoolPages(s, b, KvNeed(s, b) * s.bytesPerPage);
    assert SearchGeometry(s, b) == g && TenantStateBytes(s, b) == TenantStateBytes(s, a);
    OneSequence(s, b);
    PoolHoldsAsk(s, b);
    SomePages(s, b);
    if pool > 0 {
      AtLeastAsked(g, pool, m);
    }
  }

  /** Where the floor is covered, the ceilings are in order from there on. */
  lemma CeilingsAreOrderly(s: Shape, a: Ask, minSeq: nat, top: nat)
    requires Sizable(s) && a.conc == 1 && minSeq > 0 && s.kvLayers > 0
    requires SearchTrust.KeepsPace(SearchGeometry(s, a)) && !SplitUncovered(s, a, minSeq)
    ensures Orderly(CeilingFor(s, a), minSeq, top)
  {
    var c := CeilingFor(s, a);
    FixedExactly(s, a, minSeq);
    forall m: nat | minSeq <= m <= top ensures minSeq <= c(m) {
      CeilingRises(s, a, minSeq, m);
    }
    forall x: nat, y: nat | minSeq <= x <= y <= top ensures c(x) <= c(y) && (Fixed(c, y) ==> Fixed(c, x)) {
      CeilingRises(s, a, x, y);
      FixedExactly(s, a, x);
      FixedExactly(s, a, y);
      if SplitUncovered(s, a, x) {
        UncoveredAbove(s, a, x, y);
      }
    }
  }

  // ---- which asks settle ------------------------------------------------------------

  /** Asked m, the loop with so many rounds ends, without refusing, at a length that every reported ceiling reaches. */
  ghost predicate Settles(s: Shape, group: seq<Gpu>, minSeq: nat, m: nat, rounds: nat)
    requires Sizable(s)
  {
    var fit := FitOf(s, group);
    fit(m).Ok? &&
    var r := Reduce(fit, minSeq, s.page, false, [m], fit(m).value, rounds);
    r.Ok? && r.value.tried != [] && Reaches(r.value.ceilings, Last(r.value.tried))
  }

  /** One request, ample VRAM from the floor up, and a search whose upper end is always high enough. */
  ghost predicate Serves(s: Shape, group: seq<Gpu>, minSeq: nat, top: nat)
    requires Sizable(s)
  {
    && group != [] && AmpleGroup(s, group, minSeq, top) && 0 < minSeq <= top
    && s.kvLayers > 0 && SearchTrust.KeepsPace(SearchGeometry(s, group[0].ask))
  }

  /** With the floor covered, settling is where the descent of the ceilings ends. */
  lemma SettlesByDescent(s: Shape, group: seq<Gpu>, minSeq: nat, top: nat, m: nat, rounds: nat)
    requires Sizable(s) && Serves(s, group, minSeq, top) && minSeq <= m <= top
    requires !SplitUncovered(s, group[0].ask, minSeq)
    ensures var c := CeilingFor(s, group[0].ask);
      && Orderly(c, minSeq, top)
      && (Settles(s, group, minSeq, m, rounds) <==> Fixed(c, After(c, minSeq, s.page, m, rounds)))
  {
    var a, fit := group[0].ask, FitOf(s, group);
    var c := CeilingFor(s, a);
    CeilingsAreOrderly(s, a, minSeq, top);
    forall n: nat | minSeq <= n <= top
      ensures fit(n).Ok? && fit(n).value != [] && forall x <- fit(n).value :: x == c(n)
    {
      GroupReports(s, group, a, n);
    }
    LoopDescends(fit, c, minSeq, s.page, top, [m], rounds);
    var r := Reduce(fit, minSeq, s.page, false, [m], fit(m).value, rounds).value;
    assert r.ceilings[0] in r.ceilings;
  }

  /** With the floor uncovered nothing settles, in any number of rounds. */
  lemma UncoveredNeverSettles(s: Shape, group: seq<Gpu>, minSeq: nat, top: nat, m: nat, rounds: nat)
    requires Sizable(s) && Serves(s, group, minSeq, top) && minSeq <= m <= top
    requires SplitUncovered(s, group[0].ask, minSeq)
    ensures !Settles(s, group, minSeq, m, rounds)
  {
    var fit, a := FitOf(s, group), group[0].ask;
    GroupAt(s, group, a, m);
    var r := Reduce(fit, minSeq, s.page, false, [m], fit(m).value, rounds);
    if r.Ok? {
      ReduceGuarantees(fit, minSeq, s.page, false, [m], fit(m).value, rounds);
      var last := Last(r.value.tried);
      UncoveredAbove(s, a, minSeq, last);
      GroupAt(s, group, a, last);
      assert r.value.ceilings[0] in r.value.ceilings;
    }
  }

  /**
   * Exactly when the loop is a fixed-point search: with a round for every page
   * of the ask above the floor, it ends at a fixed point if and only if the
   * floor is covered.
   */
  lemma SettlesExactly(s: Shape, group: seq<Gpu>, minSeq: nat, top: nat, m: nat, rounds: nat)
    requires Sizable(s) && Serves(s, group, minSeq, top) && minSeq <= m <= top
    requires m == minSeq || PagesAbove(m, minSeq, s.page) <= rounds
    ensures Settles(s, group, minSeq, m, rounds) <==> !SplitUncovered(s, group[0].ask, minSeq)
  {
    if SplitUncovered(s, group[0].ask, minSeq) {
      UncoveredNeverSettles(s, group, minSeq, top, m, rounds);
    } else {
      SettlesNear(s, group, minSeq, top, minSeq, m, rounds);
    }
  }

  /** A round for every token above the floor is always enough. */
  lemma TokensSuffice(m: nat, low: nat, page: nat)
    requires page > 0 && low < m
    ensures PagesAbove(m, low, page) <= m - low
  {
    var d := m - 1 - low;
    LastPage(m, page);
    MulLe(1, page, d);
    DivLe(m - 1, low + d * page, page);
    DivModUnique(low + d * page, low / page + d, page, low % page);
  }

  /** An ask at most as many pages above a covered length as there are rounds settles. */
  lemma SettlesNear(s: Shape, group: seq<Gpu>, minSeq: nat, top: nat, covered: nat, m: nat, rounds: nat)
    requires Sizable(s) && Serves(s, group, minSeq, top) && minSeq <= m <= top
    requires minSeq <= covered <= top && !SplitUncovered(s, group[0].ask, covered)
    requires m <= covered || PagesAbove(m, covered, s.page) <= rounds
    ensures Settles(s, group, minSeq, m, rounds)
  {
    var a := group[0].ask;
    if SplitUncovered(s, a, minSeq) {
      UncoveredAbove(s, a, minSeq, covered);
    }
    SettlesByDescent(s, group, minSeq, top, m, rounds);
    FixedExactly(s, a, covered);
    DescentSettles(CeilingFor(s, a), minSeq, s.page, top, covered, m, rounds);
  }

  /** The asks that settle in some rounds are those up to a threshold. */
  lemma SettlesBelow(s: Shape, group: seq<Gpu>, minSeq: nat, top: nat, short: nat, long: nat, rounds: nat)
    requires Sizable(s) && Serves(s, group, minSeq, top) && minSeq <= short <= long <= top
    requires Settles(s, group, minSeq, long, rounds)
    ensures Settles(s, group, minSeq, short, rounds)
  {
    var a := group[0].ask;
    if SplitUncovered(s, a, minSeq) {
      UncoveredNeverSettles(s, group, minSeq, top, long, rounds);
    }
    SettlesByDescent(s, group, minSeq, top, short, rounds);
    SettlesByDescent(s, group, minSeq, top, long, rounds);
    DescentBelow(CeilingFor(s, a), minSeq, s.page, top, short, long, rounds);
  }

  /** An ask covered at its own length is left as it is, by break in the first round. */
  lemma CoveredStays(s: Shape, group: seq<Gpu>, minSeq: nat, top: nat, m: nat, rounds: nat)
    requires Sizable(s) && Serves(s, group, minSeq, top) && minSeq <= m <= top && rounds > 0
    ensures !SplitUncovered(s, group[0].ask, m) <==>
      FitOf(s, group)(m).Ok? && var first := FitOf(s, group)(m).value;
      Reaches(first, m)
      && Reduce(FitOf(s, group), minSeq, s.page, false, [m], first, rounds) == Ok(Outcome([m], first, true))
  {
    var a := group[0].ask;
    GroupReports(s, group, a, m);
    FixedExactly(s, a, m);
    var first := FitOf(s, group)(m).value;
    LeastOfOne(first, CeilingOf(s, a, m));
    assert first[0] in first;
  }

  /** What does not settle refuses, or ends above every ceiling. */
  lemma SettlesOrNot(s: Shape, group: seq<Gpu>, minSeq: nat, top: nat, m: nat)
    requires Sizable(s) && Serves(s, group, minSeq, top) && minSeq <= m <= top
    ensures Unsettled(s, group, minSeq, m) <==> !Settles(s, group, minSeq, m, ROUNDS)
  {
    var fit, a := FitOf(s, group), group[0].ask;
    GroupAt(s, group, a, m);
    var r := Reduce(fit, minSeq, s.page, false, [m], fit(m).value, ROUNDS);
    if r.Ok? {
      ReduceGuarantees(fit, minSeq, s.page, false, [m], fit(m).value, ROUNDS);
      GroupAt(s, group, a, Last(r.value.tried));
      assert r.value.ceilings[0] in r.value.ceilings;
    }
  }

  // ---- a model that needs more rounds than there are ----------------------------------

  /** One KV layer and one of recurrent state, mapped in slabs of a page; a hundred bytes a page of one token. */
  const TENANT := Shape(1, 0, 1, true, 100, 100, 1, 1, 1, 1, true)

  /** Two slabs of state a layer. */
  const HALL := Gpu(Ask(1_000_000_000, 0, 0, 0, 0, 0, 200, 0, 1, false, false, 1, 10_000), _ => 0, _ => 0)

  lemma TenantIsServed()
    ensures Serves(TENANT, [HALL], 10, 10_000)
  {
    var g := SearchGeometry(TENANT, HALL.ask);
    assert g.shard == 1 && g.layers == 1;
    SearchTrust.FewShardsKeepPace(g);
    forall m: nat | 10 <= m <= 10_000 ensures Ample(TENANT, At(HALL, m)) {
      TenantNeed(10_000);
      AmpleForShorter(TENANT, HALL, m, 10_000);
    }
  }

  lemma TenantNeed(m: nat)
    ensures KvNeed(TENANT, HALL.ask.(maxSeq := m)) == m
  {
  }

  lemma TenantCeiling(m: nat)
    requires m > 0
    ensures CeilingOf(TENANT, HALL.ask, m) == 85 * m / 100 + 2
  {
    var b := HALL.ask.(maxSeq := m);
    var g, pool := SearchGeometry(TENANT, b), 85 * m / 100 + 4;
    TenantNeed(m);
    OneSequence(TENANT, b);
    assert KdaBytes(TENANT, b) == 400 && PoolBytes(TENANT, b, m * 100) == 85 * m + 400;
    assert PoolPages(TENANT, b, m * 100) == pool;
    assert g.shard == 1 && g.layers == 1;
    SearchTrust.FewShardsKeepPace(g);
    assert forall t: nat :: t > 0 ==> Demand(g, t) == t + 2;
    AtLeastAsked(g, pool, pool - 2);
    AtLeastAsked(g, pool, pool - 1);
  }

  /**
   * Its floor of 10 is covered, as is every length up to 13, yet four rounds
   * bring only the asks up to 17 to a fixed point: asked 18, the loop tries 17,
   * 16, 15 and 14, and stops above the ceiling of 13.
   */
  lemma FourRoundsFallShort(m: nat)
    requires 10 <= m <= 10_000
    ensures !SplitUncovered(TENANT, HALL.ask, 10)
    ensures Settles(TENANT, [HALL], 10, m, ROUNDS) <==> m <= 17
    ensures Unsettled(TENANT, [HALL], 10, m) <==> m >= 18
  {
    TenantIsServed();
    TenantCovered(13);
    TenantCovered(10);
    if m <= 17 {
      SettlesNear(TENANT, [HALL], 10, 10_000, 13, m, ROUNDS);
    } else if Settles(TENANT, [HALL], 10, m, ROUNDS) {
      SettlesBelow(TENANT, [HALL], 10, 10_000, 18, m, ROUNDS);
      SettlesByDescent(TENANT, [HALL], 10, 10_000, 18, ROUNDS);
      EighteenIsTooFar();
    }
    SettlesOrNot(TENANT, [HALL], 10, 10_000, m);
  }

  lemma TenantCovered(m: nat)
    requires 0 < m <= 13
    ensures !SplitUncovered(TENANT, HALL.ask, m)
  {
    TenantNeed(m);
    assert TenantStateBytes(TENANT, HALL.ask) == 200;
  }

  lemma EighteenIsTooFar()
    ensures var c := CeilingFor(TENANT, HALL.ask); After(c, 10, 1, 18, ROUNDS) == 14 && !Fixed(c, 14)
  {
    var c := CeilingFor(TENANT, HALL.ask);
    forall m: nat | 14 <= m <= 18 ensures Lowered(c, 10, 1, m) == m - 1 && !Fixed(c, m) {
      TenantCeiling(m);
    }
    assert After(c, 10, 1, 14, 0) == 14;
    assert After(c, 10, 1, 15, 1) == 14;
    assert After(c, 10, 1, 16, 2) == 14;
    assert After(c, 10, 1, 17, 3) == 14;
  }
}
