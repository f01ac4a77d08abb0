// The solver lowers the asked context to the ceiling its own fit reports, and
// fits again, four times at most (python/autoconfig/solver.py, solve).
module ReduceLoop {
  import opened IntMath
  import opened Sequences
  import opened Admission
  import SearchTrust
  import opened UntieredFit

  const ROUNDS := 4

  /** A fit at one context length: the single-request ceilings of the TP GPUs, or a refusal. */
  type FitAt = nat -> Result<seq<nat>, Refusal>

  /** The lengths tried, the last one being the result; byBreak: the loop left because no ceiling bound any more. */
  datatype Outcome = Outcome(tried: seq<nat>, ceilings: seq<nat>, byBreak: bool)

  /** The least positive ceiling, 0 when there is none. */
  function Least(ceilings: seq<nat>): (m: nat)
    ensures m > 0 ==> m in ceilings
    ensures forall c <- ceilings :: c > 0 ==> 0 < m <= c
  {
    if ceilings == [] then 0
    else
      var rest, c := Least(ceilings[1..]), ceilings[0];
      assert forall x <- ceilings :: x == c || x in ceilings[1..];
      if c > 0 && (rest == 0 || c < rest) then c else rest
  }

  function NextAsk(ceiling: nat, minSeq: nat, page: nat): nat
    requires page > 0
  {
    Max(minSeq, ceiling / page * page)
  }

  /** A reduction strictly lowers the ask, to no less than the floor and no more than the ceiling. */
  lemma NextAskLowers(ceiling: nat, minSeq: nat, page: nat, asked: nat)
    requires page > 0 && minSeq <= ceiling < asked
    ensures minSeq <= NextAsk(ceiling, minSeq, page) <= ceiling < asked
  {
  }

  /** It is the floor, or the last whole page below the ceiling. */
  lemma NextAskExactly(ceiling: nat, minSeq: nat, page: nat, pages: nat)
    requires page > 0 && pages * page <= ceiling < (pages + 1) * page
    ensures NextAsk(ceiling, minSeq, page) == if pages * page > minSeq then pages * page else minSeq
  {
    DivReaches(ceiling, page, pages);
    DivReaches(ceiling, page, pages + 1);
  }

  function Reduce(fit: FitAt, minSeq: nat, page: nat, pinned: bool, tried: seq<nat>, ceilings: seq<nat>, rounds: nat)
      : Result<Outcome, Refusal>
    requires page > 0 && tried != []
    decreases rounds
  {
    if rounds == 0 then Ok(Outcome(tried, ceilings, false))
    else
      var adm := Least(ceilings);
      if adm == 0 || adm >= Last(tried) then Ok(Outcome(tried, ceilings, true))
      else if pinned then Err(PinnedNotAdmissible(adm))
      else if adm < minSeq then Err(MaxSeqNotAdmissible(adm))
      else
        var next := NextAsk(adm, minSeq, page);
        match fit(next)
        case Err(e) => Err(e)
        case Ok(cs) => Reduce(fit, minSeq, page, pinned, tried + [next], cs, rounds - 1)
  }

  /** The loop itself, from the ceilings of the winning fit. */
  method ReduceToCeiling(fit: FitAt, minSeq: nat, page: nat, pinned: bool, asked: nat, first: seq<nat>)
      returns (r: Result<Outcome, Refusal>)
    requires page > 0
    ensures r == Reduce(fit, minSeq, page, pinned, [asked], first, ROUNDS)
  {
    var maxSeq: nat, tried: seq<nat>, ceilings: seq<nat> := asked, [asked], first;
    for round := 0 to ROUNDS
      invariant tried != [] && maxSeq == Last(tried)
      invariant Reduce(fit, minSeq, page, pinned, [asked], first, ROUNDS)
             == Reduce(fit, minSeq, page, pinned, tried, ceilings, ROUNDS - round)
    {
      var adm := Least(ceilings);
      if adm <= 0 || adm >= maxSeq {
        return Ok(Outcome(tried, ceilings, true));
      }
      if pinned {
        return Err(PinnedNotAdmissible(adm));
      }
      if adm < minSeq {
        return Err(MaxSeqNotAdmissible(adm));
      }
      maxSeq := NextAsk(adm, minSeq, page);
      tried := tried + [maxSeq];
      match fit(maxSeq)
      case Err(e) =>
        return Err(e);
      case Ok(cs) =>
        ceilings := cs;
    }
    return Ok(Outcome(tried, ceilings, false));
  }

  /** Strictly falling, and never below minSeq after the first. */
  ghost predicate Falling(tried: seq<nat>, minSeq: nat) {
    forall i, j :: 0 <= i < j < |tried| ==> minSeq <= tried[j] < tried[i]
  }

  /**
   * What the loop guarantees of its result: each round strictly lowered the
   * length, never below the floor; the reported ceilings belong to the final
   * length; a pinned length never changes; and if the loop left by break, no
   * positive ceiling is below the length, else all rounds were used.
   */
  lemma {:induction false} ReduceGuarantees(fit: FitAt, minSeq: nat, page: nat, pinned: bool,
                                            tried: seq<nat>, first: seq<nat>, rounds: nat)
    requires page > 0 && tried != [] && Falling(tried, minSeq) && fit(Last(tried)) == Ok(first)
    requires Reduce(fit, minSeq, page, pinned, tried, first, rounds).Ok?
    ensures var o := Reduce(fit, minSeq, page, pinned, tried, first, rounds).value;
      && tried <= o.tried && Falling(o.tried, minSeq) && fit(Last(o.tried)) == Ok(o.ceilings)
      && (pinned ==> o.tried == tried)
      && (if o.byBreak then forall c <- o.ceilings :: c > 0 ==> Last(o.tried) <= c
          else |o.tried| == |tried| + rounds)
    decreases rounds
  {
    var adm := Least(first);
    if rounds > 0 && !(adm == 0 || adm >= Last(tried)) {
      NextAskLowers(adm, minSeq, page, Last(tried));
      var next := NextAsk(adm, minSeq, page);
      ReduceGuarantees(fit, minSeq, page, pinned, tried + [next], fit(next).value, rounds - 1);
    }
  }

  // ---- the concrete fit -----------------------------------------------------

  /**
   * One GPU of the TP group. Its safety margin and the expert bytes it carries
   * are worked out anew for every length.
   */
  datatype Gpu = Gpu(ask: Ask, margin: nat -> nat, experts: nat -> nat)

  function At(g: Gpu, maxSeq: nat): Ask {
    g.ask.(maxSeq := maxSeq, margin := g.margin(maxSeq), experts := g.experts(maxSeq))
  }

  /** The ceilings of all GPUs of the group at one length, or the first refusal. */
  function GroupFit(s: Shape, group: seq<Gpu>, maxSeq: nat): Result<seq<nat>, Refusal>
    requires Sizable(s)
  {
    if group == [] then Ok([])
    else
      match Fit(s, At(group[0], maxSeq))
      case Err(e) => Err(e)
      case Ok(p) =>
        match GroupFit(s, group[1..], maxSeq)
        case Err(e) => Err(e)
        case Ok(cs) => Ok([p.admissible] + cs)
  }

  function FitOf(s: Shape, group: seq<Gpu>): FitAt
    requires Sizable(s)
  {
    m => GroupFit(s, group, m)
  }

  /** All GPUs of the group serve the same request at the same TP degree. */
  predicate Alike(a: Ask, b: Ask) {
    a.layerState == b.layerState && a.tp == b.tp && a.sharded == b.sharded
    && a.localIndexer == b.localIndexer && a.conc == b.conc
  }

  /** One request, and on every GPU VRAM ample at every length from minSeq to asked. */
  ghost predicate AmpleGroup(s: Shape, group: seq<Gpu>, minSeq: nat, asked: nat)
    requires Sizable(s)
  {
    forall g <- group :: Alike(g.ask, group[0].ask) && g.ask.conc == 1
      && forall m: nat :: minSeq <= m <= asked ==> Ample(s, At(g, m))
  }

  lemma BelowAsked(g: Geometry, pool: nat, asked: nat)
    requires g.page > 0 && asked > 0 && Demand(g, asked) > pool
    ensures AdmissibleTokens(g, pool) < asked
  {
    if Searchable(g, pool) {
      SearchFinds(g, pool);
      var t := AdmissibleTokens(g, pool);
      if t >= asked {
        DemandMonotone(g, 0, t);
        DemandMonotone(g, asked, t);
      }
    }
  }

  lemma IndexerBytesMonotone(s: Shape, a: Ask, b: nat)
    requires Sizable(s) && b <= a.maxSeq
    ensures IndexerBytesPerSequence(s, a.(maxSeq := b)) <= IndexerBytesPerSequence(s, a)
  {
    var a' := a.(maxSeq := b);
    IndexerAccounting(s, a);
    IndexerAccounting(s, a');
    assert SearchGeometry(s, a') == SearchGeometry(s, a);
    IndexerShareMonotone(SearchGeometry(s, a), b, a.maxSeq);
    MulLe(IndexerShare(SearchGeometry(s, a), b), IndexerShare(SearchGeometry(s, a), a.maxSeq), s.bytesPerPage);
  }

  lemma NeedMonotone(s: Shape, a: Ask, b: nat)
    requires Sizable(s) && b <= a.maxSeq
    ensures KvNeed(s, a.(maxSeq := b)) <= KvNeed(s, a)
  {
    var x := SequencePages(b, s.page, Shards(a), s.chunkTokens);
    var y := SequencePages(a.maxSeq, s.page, Shards(a), s.chunkTokens);
    SequencePagesMonotone(b, a.maxSeq, s.page, Shards(a), s.chunkTokens);
    MulLe(x, y, a.conc);
    MulLe(a.conc * x, a.conc * y, s.kvLayers);
  }

  /** VRAM ample for one request is ample for a shorter one with no greater margin and no more experts. */
  lemma AmpleForShorter(s: Shape, g: Gpu, b: nat, m: nat)
    requires Sizable(s) && Ample(s, At(g, m)) && g.ask.conc == 1 && b <= m
    requires g.margin(b) <= g.margin(m) && g.experts(b) <= g.experts(m)
    ensures Ample(s, At(g, b))
  {
    var long, short := At(g, m), At(g, b);
    IndexerBytesMonotone(s, long, b);
    NeedMonotone(s, long, b);
    MulLe(KvNeed(s, short), KvNeed(s, long), s.bytesPerPage);
    OneSequence(s, long);
    OneSequence(s, short);
    assert Fixed(s, short) >= Fixed(s, long);
  }

  lemma OneSequence(s: Shape, a: Ask)
    requires Sizable(s) && a.conc == 1
    ensures IndexerSequences(s, a) == 1 && IndexerShareBytes(s, a) == IndexerBytesPerSequence(s, a)
  {
  }

  /** The speculation split outweighs the spare state slots at this length. */
  predicate SplitUncovered(s: Shape, a: Ask, maxSeq: nat)
    requires Sizable(s)
  {
    SpeculationBytes(KvNeed(s, a.(maxSeq := maxSeq)) * s.bytesPerPage) > s.prefixEntries * TenantStateBytes(s, a)
  }

  /** A longer request is never better covered. */
  lemma UncoveredAbove(s: Shape, a: Ask, low: nat, high: nat)
    requires Sizable(s) && low <= high && SplitUncovered(s, a, low)
    ensures SplitUncovered(s, a, high)
  {
    var x, y := KvNeed(s, a.(maxSeq := low)), KvNeed(s, a.(maxSeq := high));
    NeedMonotone(s, a.(maxSeq := high), low);
    MulLe(x, y, s.bytesPerPage);
    DivLe(x * s.bytesPerPage * 15, y * s.bytesPerPage * 15, 100);
  }

  /** At one length, one ample GPU's ceiling reaches the length exactly when the split is covered. */
  lemma CeilingAt(s: Shape, a: Ask, b: Ask)
    requires Sizable(s) && Ample(s, b) && Alike(a, b) && b.conc == 1 && b.maxSeq > 0
    ensures Fit(s, b).Ok?
    ensures SplitUncovered(s, a, b.maxSeq) ==> Fit(s, b).value.admissible < b.maxSeq
    ensures s.kvLayers > 0 && SearchTrust.KeepsPace(SearchGeometry(s, b)) && !SplitUncovered(s, a, b.maxSeq) ==>
      Fit(s, b).value.admissible >= b.maxSeq
  {
    AmplePool(s, b);
    PoolHoldsAsk(s, b);
    FitCases(s, b);
    assert KvNeed(s, a.(maxSeq := b.maxSeq)) == KvNeed(s, b) && TenantStateBytes(s, a) == TenantStateBytes(s, b);
    if SplitUncovered(s, a, b.maxSeq) {
      BelowAsked(SearchGeometry(s, b), Fit(s, b).value.poolPages, b.maxSeq);
    } else if s.kvLayers > 0 && SearchTrust.KeepsPace(SearchGeometry(s, b)) {
      SingleAskAdmissibleExactly(s, b);
    }
  }

  ghost predicate Below(cs: seq<nat>, m: nat) {
    forall c <- cs :: c < m
  }

  ghost predicate Reaches(cs: seq<nat>, m: nat) {
    forall c <- cs :: c >= m
  }

  /** The same for the whole group, which answers to one member's ask. */
  lemma {:induction false} GroupAt(s: Shape, group: seq<Gpu>, a: Ask, m: nat)
    requires Sizable(s) && m > 0
    requires forall g <- group :: Alike(g.ask, a) && g.ask.conc == 1 && Ample(s, At(g, m))
    ensures GroupFit(s, group, m).Ok? && |GroupFit(s, group, m).value| == |group|
    ensures SplitUncovered(s, a, m) ==> Below(GroupFit(s, group, m).value, m)
    ensures s.kvLayers > 0 && SearchTrust.KeepsPace(SearchGeometry(s, a)) && !SplitUncovered(s, a, m) ==>
      Reaches(GroupFit(s, group, m).value, m)
    decreases |group|
  {
    if group != [] {
      var b := At(group[0], m);
      assert group[0] in group;
      CeilingAt(s, a, b);
      assert SearchGeometry(s, b) == SearchGeometry(s, a);
      GroupAt(s, group[1..], a, m);
    }
  }

  /** Asked m, the loop refuses, or ends at a length above every ceiling reported for it. */
  ghost predicate Unsettled(s: Shape, group: seq<Gpu>, minSeq: nat, m: nat)
    requires Sizable(s)
  {
    var fit := FitOf(s, group);
    fit(m).Err? ||
    match Reduce(fit, minSeq, s.page, false, [m], fit(m).value, ROUNDS)
    case Err(_) => true
    case Ok(o) => Below(o.ceilings, Last(o.tried))
  }

  lemma UncoveredUnsettled(s: Shape, group: seq<Gpu>, minSeq: nat, asked: nat, m: nat)
    requires Sizable(s) && group != [] && AmpleGroup(s, group, minSeq, asked) && 0 < minSeq <= m <= asked
    requires SplitUncovered(s, group[0].ask, minSeq)
    ensures Unsettled(s, group, minSeq, m)
  {
    var fit, a := FitOf(s, group), group[0].ask;
    GroupAt(s, group, a, m);
    var r := Reduce(fit, minSeq, s.page, false, [m], fit(m).value, ROUNDS);
    if r.Ok? {
      ReduceGuarantees(fit, minSeq, s.page, false, [m], fit(m).value, ROUNDS);
      var last := Last(r.value.tried);
      assert minSeq <= last <= m;
      UncoveredAbove(s, a, minSeq, last);
      GroupAt(s, group, a, last);
    }
  }

  lemma CoveredSettles(s: Shape, group: seq<Gpu>, minSeq: nat, asked: nat)
    requires Sizable(s) && group != [] && AmpleGroup(s, group, minSeq, asked) && 0 < minSeq <= asked
    requires s.kvLayers > 0 && SearchTrust.KeepsPace(SearchGeometry(s, group[0].ask))
    requires !SplitUncovered(s, group[0].ask, minSeq)
    ensures !Unsettled(s, group, minSeq, minSeq)
  {
    var fit := FitOf(s, group);
    GroupAt(s, group, group[0].ask, minSeq);
    var cs := fit(minSeq).value;
    assert cs[0] in cs && Least(cs) >= minSeq;
  }

  /**
   * Exactly when the loop is not a fixed-point search. With one request and
   * ample VRAM, whatever length from the floor up is asked the loop refuses or
   * ends above every ceiling, if and only if at the floor the speculation split
   * outweighs the spare state.
   */
  lemma NeverAdmissible(s: Shape, group: seq<Gpu>, minSeq: nat, asked: nat)
    requires Sizable(s) && group != [] && AmpleGroup(s, group, minSeq, asked) && 0 < minSeq <= asked
    requires s.kvLayers > 0 && SearchTrust.KeepsPace(SearchGeometry(s, group[0].ask))
    ensures (forall m: nat :: minSeq <= m <= asked ==> Unsettled(s, group, minSeq, m))
      <==> SplitUncovered(s, group[0].ask, minSeq)
  {
    if SplitUncovered(s, group[0].ask, minSeq) {
      forall m: nat | minSeq <= m <= asked ensures Unsettled(s, group, minSeq, m) {
        UncoveredUnsettled(s, group, minSeq, asked, m);
      }
    } else {
      CoveredSettles(s, group, minSeq, asked);
    }
  }

  /** Without mapped state every split of at least one byte is uncovered. */
  lemma NoStateUncovers(s: Shape, a: Ask, maxSeq: nat)
    requires Sizable(s) && !Mapped(s)
    ensures SplitUncovered(s, a, maxSeq) <==> KvNeed(s, a.(maxSeq := maxSeq)) * s.bytesPerPage >= 7
  {
  }

  // ---- a model the loop never settles -------------------------------------------

  /** One KV layer, no indexer, no recurrent state, a hundred bytes a page of one token. */
  const PLAIN := Shape(1, 0, 0, false, 100, 0, 1, 1, 1, 0, false)

  const ROOMY := Gpu(Ask(1_000_000_000, 0, 0, 0, 0, 0, 0, 0, 1, false, false, 1, 10_000), _ => 0, _ => 0)

  lemma PlainIsAmple(m: nat)
    requires m <= 10_000
    ensures Ample(PLAIN, At(ROOMY, m)) && KvNeed(PLAIN, At(ROOMY, m)) == m
  {
    AmpleForShorter(PLAIN, ROOMY, m, 10_000);
  }

  /** With a gigabyte to spare and any ask from 10 to 10000 tokens, the loop never settles. */
  lemma PlainNeverSettles(m: nat)
    requires 10 <= m <= 10_000
    ensures Unsettled(PLAIN, [ROOMY], 10, m)
  {
    forall n: nat | n <= 10_000 ensures Ample(PLAIN, At(ROOMY, n)) && KvNeed(PLAIN, At(ROOMY, n)) == n {
      PlainIsAmple(n);
    }
    NoStateUncovers(PLAIN, ROOMY.ask, 10);
    assert ROOMY.ask.(maxSeq := 10) == At(ROOMY, 10);
    UncoveredUnsettled(PLAIN, [ROOMY], 10, 10_000, m);
  }
}
