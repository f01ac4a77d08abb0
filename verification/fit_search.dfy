// The E1 search: one lattice of attempts, three orders over it, a memo of the
// fits tried, and the first fit in order (python/autoconfig/solver.py).
module FitSearch {
  import opened Options

  datatype Verdict<+P, +E> = Fits(plans: P) | Infeasible(error: E)
  datatype Prefer = Speed | Balanced | Capacity

  /** One point of the lattice: its position on each axis, and what stands there. */
  datatype Attempt = Attempt(
    tpIdx: nat, idxIdx: nat, capIdx: nat, draftOff: bool, tierIdx: nat,
    tp: nat, idxMode: string, conc: nat, maxSeq: nat, tieringOn: bool)

  // ---- order keys -----------------------------------------------------------

  /** The order keys are nested tuples of one fixed shape, so they compare like the flattened five numbers. */
  datatype Key = Key(k0: nat, k1: nat, k2: nat, k3: nat, k4: nat)

  predicate Less(a: Key, b: Key) {
    if a.k0 != b.k0 then a.k0 < b.k0
    else if a.k1 != b.k1 then a.k1 < b.k1
    else if a.k2 != b.k2 then a.k2 < b.k2
    else if a.k3 != b.k3 then a.k3 < b.k3
    else a.k4 < b.k4
  }

  function Bit(b: bool): nat { if b then 1 else 0 }

  function ChainKey(prefer: Prefer, a: Attempt): (nat, nat) {
    if prefer == Speed then (Bit(a.draftOff), a.capIdx)
    else if a.capIdx == 0 then (0, Bit(a.draftOff))
    else (if a.draftOff then 1 else 2, a.capIdx)
  }

  function OrderKey(prefer: Prefer, a: Attempt): Key {
    var c := ChainKey(prefer, a);
    match prefer
    case Speed => Key(a.tpIdx, a.idxIdx, c.0, c.1, a.tierIdx)
    case Capacity => Key(c.0, c.1, a.tpIdx, a.idxIdx, a.tierIdx)
    case Balanced => Key(a.tpIdx, c.0, c.1, a.idxIdx, a.tierIdx)
  }

  // ---- the lattice ----------------------------------------------------------

  datatype TpSetup = TpSetup(tp: nat, idxModes: seq<string>, tiers: seq<bool>)
  datatype Rung = Rung(conc: nat, maxSeq: nat)
  datatype Axes = Axes(setups: seq<TpSetup>, caps: seq<Rung>, drafts: seq<bool>)

  function PointAt(x: Axes, ti: nat, xi: nat, ci: nat, off: bool, zi: nat): Attempt
    requires ti < |x.setups| && xi < |x.setups[ti].idxModes| && ci < |x.caps| && zi < |x.setups[ti].tiers|
  {
    var s := x.setups[ti];
    Attempt(ti, xi, ci, off, zi, s.tp, s.idxModes[xi], x.caps[ci].conc, x.caps[ci].maxSeq, s.tiers[zi])
  }

  /** a stands where its coordinates say. */
  predicate OnLattice(x: Axes, a: Attempt) {
    a.tpIdx < |x.setups| && a.idxIdx < |x.setups[a.tpIdx].idxModes| && a.capIdx < |x.caps|
    && a.tierIdx < |x.setups[a.tpIdx].tiers| && a.draftOff in x.drafts
    && a.tp == x.setups[a.tpIdx].tp && a.idxMode == x.setups[a.tpIdx].idxModes[a.idxIdx]
    && a.conc == x.caps[a.capIdx].conc && a.maxSeq == x.caps[a.capIdx].maxSeq
    && a.tieringOn == x.setups[a.tpIdx].tiers[a.tierIdx]
  }

  ghost predicate NoRepeats<T>(s: seq<T>) {
    forall i, j :: 0 <= i < j < |s| ==> s[i] != s[j]
  }

  lemma JoinNoRepeats<T>(s: seq<T>, t: seq<T>)
    requires NoRepeats(s) && NoRepeats(t) && forall a <- t :: a !in s
    ensures NoRepeats(s + t)
  {
    forall i, j | 0 <= i < j < |s + t| ensures (s + t)[i] != (s + t)[j] {
      assert j >= |s| ==> (s + t)[j] == t[j - |s|] && t[j - |s|] in t;
      assert i < |s| ==> (s + t)[i] in s;
    }
  }

  /** The nested loops: every point of the lattice and nothing else, each once. */
  method BuildLattice(x: Axes) returns (out: seq<Attempt>)
    ensures forall a :: a in out <==> OnLattice(x, a)
    ensures NoRepeats(x.drafts) ==> NoRepeats(out)
  {
    out := [];
    for ti := 0 to |x.setups|
      invariant forall a :: a in out <==> OnLattice(x, a) && a.tpIdx < ti
      invariant NoRepeats(x.drafts) ==> NoRepeats(out)
    {
      for xi := 0 to |x.setups[ti].idxModes|
        invariant forall a :: a in out <==> OnLattice(x, a) && (a.tpIdx < ti || (a.tpIdx == ti && a.idxIdx < xi))
        invariant NoRepeats(x.drafts) ==> NoRepeats(out)
      {
        var plane := Plane(x, ti, xi);
        if NoRepeats(x.drafts) {
          JoinNoRepeats(out, plane);
        }
        out := out + plane;
      }
    }
  }

  /** The capacity, draft and tiering loops for one TP degree and indexer mode. */
  method Plane(x: Axes, ti: nat, xi: nat) returns (out: seq<Attempt>)
    requires ti < |x.setups| && xi < |x.setups[ti].idxModes|
    ensures forall a :: a in out <==> OnLattice(x, a) && a.tpIdx == ti && a.idxIdx == xi
    ensures NoRepeats(x.drafts) ==> NoRepeats(out)
  {
    out := [];
    for ci := 0 to |x.caps|
      invariant forall a :: a in out <==> OnLattice(x, a) && a.tpIdx == ti && a.idxIdx == xi && a.capIdx < ci
      invariant NoRepeats(x.drafts) ==> NoRepeats(out)
    {
      for di := 0 to |x.drafts|
        invariant forall a :: a in out <==>
          OnLattice(x, a) && a.tpIdx == ti && a.idxIdx == xi
          && (a.capIdx < ci || (a.capIdx == ci && a.draftOff in x.drafts[..di]))
        invariant NoRepeats(x.drafts) ==> NoRepeats(out)
      {
        var tiers := Tiers(x, ti, xi, ci, x.drafts[di]);
        if NoRepeats(x.drafts) {
          JoinNoRepeats(out, tiers);
        }
        out := out + tiers;
      }
      assert x.drafts[..|x.drafts|] == x.drafts;
    }
  }

  method Tiers(x: Axes, ti: nat, xi: nat, ci: nat, off: bool) returns (out: seq<Attempt>)
    requires ti < |x.setups| && xi < |x.setups[ti].idxModes| && ci < |x.caps| && off in x.drafts
    ensures forall a :: a in out <==>
      OnLattice(x, a) && a.tpIdx == ti && a.idxIdx == xi && a.capIdx == ci && a.draftOff == off
    ensures NoRepeats(out)
  {
    out := [];
    for zi := 0 to |x.setups[ti].tiers|
      invariant forall a :: a in out <==>
        OnLattice(x, a) && a.tpIdx == ti && a.idxIdx == xi && a.capIdx == ci && a.draftOff == off && a.tierIdx < zi
      invariant NoRepeats(out)
    {
      out := out + [PointAt(x, ti, xi, ci, off, zi)];
    }
  }

  /** No two points of the lattice share an order key, under any preference. */
  lemma KeysInjective(x: Axes, prefer: Prefer, a: Attempt, b: Attempt)
    requires OnLattice(x, a) && OnLattice(x, b) && OrderKey(prefer, a) == OrderKey(prefer, b)
    ensures a == b
  {
    assert a.draftOff == b.draftOff && a.capIdx == b.capIdx;
  }

  // ---- what the orders mean -------------------------------------------------

  /** The whole ask with the draft, then without it; then less and less without it, and last with it. */
  predicate ChainBefore(a: Attempt, b: Attempt) {
    if a.capIdx == 0 || b.capIdx == 0 then
      if b.capIdx > 0 then true
      else if a.capIdx > 0 then false
      else !a.draftOff && b.draftOff
    else if a.draftOff != b.draftOff then a.draftOff
    else a.capIdx < b.capIdx
  }

  predicate SameChain(a: Attempt, b: Attempt) {
    a.capIdx == b.capIdx && a.draftOff == b.draftOff
  }

  /** speed: TP degree, then indexer mode, then the draft kept as long as possible, then the ask, then tiering. */
  lemma SpeedOrder(a: Attempt, b: Attempt)
    ensures Less(OrderKey(Speed, a), OrderKey(Speed, b)) <==>
      || a.tpIdx < b.tpIdx
      || (a.tpIdx == b.tpIdx && a.idxIdx < b.idxIdx)
      || (a.tpIdx == b.tpIdx && a.idxIdx == b.idxIdx && !a.draftOff && b.draftOff)
      || (a.tpIdx == b.tpIdx && a.idxIdx == b.idxIdx && a.draftOff == b.draftOff && a.capIdx < b.capIdx)
      || (a.tpIdx == b.tpIdx && a.idxIdx == b.idxIdx && SameChain(a, b) && a.tierIdx < b.tierIdx)
  {
  }

  /** balanced: TP degree, then the chain of ask and draft, then indexer mode, then tiering. */
  lemma BalancedOrder(a: Attempt, b: Attempt)
    ensures Less(OrderKey(Balanced, a), OrderKey(Balanced, b)) <==>
      || a.tpIdx < b.tpIdx
      || (a.tpIdx == b.tpIdx && ChainBefore(a, b))
      || (a.tpIdx == b.tpIdx && SameChain(a, b) && a.idxIdx < b.idxIdx)
      || (a.tpIdx == b.tpIdx && SameChain(a, b) && a.idxIdx == b.idxIdx && a.tierIdx < b.tierIdx)
  {
  }

  /** capacity: the chain of ask and draft, then TP degree, indexer mode and tiering. */
  lemma CapacityOrder(a: Attempt, b: Attempt)
    ensures Less(OrderKey(Capacity, a), OrderKey(Capacity, b)) <==>
      || ChainBefore(a, b)
      || (SameChain(a, b) && a.tpIdx < b.tpIdx)
      || (SameChain(a, b) && a.tpIdx == b.tpIdx && a.idxIdx < b.idxIdx)
      || (SameChain(a, b) && a.tpIdx == b.tpIdx && a.idxIdx == b.idxIdx && a.tierIdx < b.tierIdx)
  {
  }

  // ---- the capacity ladder --------------------------------------------------

  function ConcRungs(conc: nat, maxSeq: nat): seq<Rung> {
    if conc == 0 then [] else [Rung(conc, maxSeq)] + ConcRungs(conc - 1, maxSeq)
  }

  function SeqRungs(conc: nat, maxSeq: nat, minSeq: nat): seq<Rung>
    requires minSeq > 0
  {
    if maxSeq < minSeq then [] else [Rung(conc, maxSeq)] + SeqRungs(conc, maxSeq / 2, minSeq)
  }

  /** The ask, then concurrency down to one, then the length halved down to the floor; a pinned axis stays put. */
  function Ladder(conc: nat, maxSeq: nat, concPinned: bool, seqPinned: bool, minSeq: nat): seq<Rung>
    requires minSeq > 0 && conc > 0
  {
    [Rung(conc, maxSeq)]
    + (if concPinned then [] else ConcRungs(conc - 1, maxSeq))
    + (if seqPinned then [] else SeqRungs(if concPinned then conc else 1, maxSeq / 2, minSeq))
  }

  method BuildLadder(conc: nat, maxSeq: nat, concPinned: bool, seqPinned: bool, minSeq: nat) returns (caps: seq<Rung>)
    requires minSeq > 0 && conc > 0
    ensures caps == Ladder(conc, maxSeq, concPinned, seqPinned, minSeq)
  {
    caps := [Rung(conc, maxSeq)];
    if !concPinned {
      var c := conc - 1;
      ghost var before := caps;
      while c >= 1
        invariant 0 <= c && caps + ConcRungs(c, maxSeq) == before + ConcRungs(conc - 1, maxSeq)
      {
        assert caps + ConcRungs(c, maxSeq) == caps + [Rung(c, maxSeq)] + ConcRungs(c - 1, maxSeq);
        caps := caps + [Rung(c, maxSeq)];
        c := c - 1;
      }
      assert caps + ConcRungs(0, maxSeq) == caps;
    }
    if !seqPinned {
      var hc, s: nat := if concPinned then conc else 1, maxSeq / 2;
      ghost var before := caps;
      while s >= minSeq
        invariant caps + SeqRungs(hc, s, minSeq) == before + SeqRungs(hc, maxSeq / 2, minSeq)
      {
        assert caps + SeqRungs(hc, s, minSeq) == caps + [Rung(hc, s)] + SeqRungs(hc, s / 2, minSeq);
        caps := caps + [Rung(hc, s)];
        s := s / 2;
      }
      assert caps + SeqRungs(hc, s, minSeq) == caps;
    }
  }

  /** Strictly less of at least one, and no more of either. */
  predicate Sheds(a: Rung, b: Rung) {
    b.conc <= a.conc && b.maxSeq <= a.maxSeq && b != a
  }

  ghost predicate Descends(caps: seq<Rung>) {
    forall i, j :: 0 <= i < j < |caps| ==> Sheds(caps[i], caps[j])
  }

  lemma {:induction false} ConcRungsDescend(conc: nat, maxSeq: nat)
    ensures Descends(ConcRungs(conc, maxSeq))
    ensures forall r <- ConcRungs(conc, maxSeq) :: 1 <= r.conc <= conc && r.maxSeq == maxSeq
  {
    if conc > 0 {
      ConcRungsDescend(conc - 1, maxSeq);
    }
  }

  lemma {:induction false} SeqRungsDescend(conc: nat, maxSeq: nat, minSeq: nat)
    requires minSeq > 0
    ensures Descends(SeqRungs(conc, maxSeq, minSeq))
    ensures forall r <- SeqRungs(conc, maxSeq, minSeq) :: r.conc == conc && minSeq <= r.maxSeq <= maxSeq
  {
    if maxSeq >= minSeq {
      SeqRungsDescend(conc, maxSeq / 2, minSeq);
    }
  }

  /** Each rung asks strictly less than every rung above it, and a pinned axis never moves on any rung. */
  lemma LadderSheds(conc: nat, maxSeq: nat, concPinned: bool, seqPinned: bool, minSeq: nat)
    requires minSeq > 0 && conc > 0 && maxSeq > 0
    ensures var caps := Ladder(conc, maxSeq, concPinned, seqPinned, minSeq);
      && Descends(caps)
      && (concPinned ==> forall r <- caps :: r.conc == conc)
      && (seqPinned ==> forall r <- caps :: r.maxSeq == maxSeq)
  {
    var top := [Rung(conc, maxSeq)];
    var a := if concPinned then [] else ConcRungs(conc - 1, maxSeq);
    var hc := if concPinned then conc else 1;
    var b := if seqPinned then [] else SeqRungs(hc, maxSeq / 2, minSeq);
    ConcRungsDescend(conc - 1, maxSeq);
    SeqRungsDescend(hc, maxSeq / 2, minSeq);
    var caps := top + a + b;
    assert Descends(top + a) by {
      assert forall i :: 1 <= i < |top + a| ==> (top + a)[i] == a[i - 1] && a[i - 1] in a;
    }
    forall i, j | 0 <= i < j < |caps| ensures Sheds(caps[i], caps[j]) {
      var n := |top + a|;
      assert j >= n ==> caps[j] == b[j - n] && b[j - n] in b;
      assert i >= n ==> caps[i] == b[i - n];
      assert i < n ==> caps[i] == (top + a)[i] && (top + a)[i] in top + a;
      assert j < n ==> caps[j] == (top + a)[j];
    }
  }

  /** n halved k times, each time rounded down. */
  function Halved(n: nat, k: nat): nat {
    if k == 0 then n else Halved(n, k - 1) / 2
  }

  lemma {:induction false} HalvedFirst(n: nat, k: nat)
    ensures Halved(n, k + 1) == Halved(n / 2, k)
    decreases k
  {
    if k > 0 {
      HalvedFirst(n, k - 1);
    }
  }

  lemma {:induction false} HalvedFalls(n: nat, k: nat)
    ensures Halved(n, k) <= n
    decreases k
  {
    if k > 0 {
      HalvedFalls(n, k - 1);
    }
  }

  lemma {:induction false} ConcRungsExactly(conc: nat, maxSeq: nat, r: Rung)
    ensures r in ConcRungs(conc, maxSeq) <==> 1 <= r.conc <= conc && r.maxSeq == maxSeq
  {
    if conc > 0 {
      ConcRungsExactly(conc - 1, maxSeq, r);
    }
  }

  lemma {:induction false} SeqRungsExactly(conc: nat, maxSeq: nat, minSeq: nat, r: Rung)
    requires minSeq > 0
    ensures r in SeqRungs(conc, maxSeq, minSeq) <==>
      r.conc == conc && r.maxSeq >= minSeq && exists k: nat :: r.maxSeq == Halved(maxSeq, k)
  {
    if r.conc == conc && r.maxSeq >= minSeq && exists k: nat :: r.maxSeq == Halved(maxSeq, k) {
      var k: nat :| r.maxSeq == Halved(maxSeq, k);
      HalvedFalls(maxSeq, k);
      if k > 0 {
        HalvedFirst(maxSeq, k - 1);
        assert r.maxSeq == Halved(maxSeq / 2, k - 1);
      }
      SeqRungsExactly(conc, maxSeq / 2, minSeq, r);
    } else if maxSeq >= minSeq {
      SeqRungsExactly(conc, maxSeq / 2, minSeq, r);
      if r in SeqRungs(conc, maxSeq, minSeq) {
        HalvedAgain(maxSeq, r.maxSeq);
      }
    }
  }

  lemma HalvedAgain(n: nat, m: nat)
    ensures m == n || (exists k: nat :: m == Halved(n / 2, k)) ==> exists k: nat :: m == Halved(n, k)
  {
    if m == n {
      assert m == Halved(n, 0);
    } else if exists k: nat :: m == Halved(n / 2, k) {
      var k: nat :| m == Halved(n / 2, k);
      HalvedFirst(n, k);
    }
  }

  /**
   * The rungs are the ask; the same length with every lower concurrency, unless
   * that is pinned; and, unless the length is pinned, every halving of it that is
   * no less than the floor, for one request or for the pinned number.
   */
  lemma LadderExactly(conc: nat, maxSeq: nat, concPinned: bool, seqPinned: bool, minSeq: nat, r: Rung)
    requires minSeq > 0 && conc > 0
    ensures r in Ladder(conc, maxSeq, concPinned, seqPinned, minSeq) <==>
      || r == Rung(conc, maxSeq)
      || (!concPinned && 1 <= r.conc < conc && r.maxSeq == maxSeq)
      || (!seqPinned && r.conc == (if concPinned then conc else 1) && r.maxSeq >= minSeq
          && exists k: nat :: r.maxSeq == Halved(maxSeq / 2, k))
  {
    ConcRungsExactly(conc - 1, maxSeq, r);
    SeqRungsExactly(if concPinned then conc else 1, maxSeq / 2, minSeq, r);
  }

  // ---- sorting --------------------------------------------------------------

  function Insert(prefer: Prefer, a: Attempt, s: seq<Attempt>): seq<Attempt> {
    if s == [] || Less(OrderKey(prefer, a), OrderKey(prefer, s[0])) then [a] + s
    else [s[0]] + Insert(prefer, a, s[1..])
  }

  /** sorted(lattice, key=...); keys being distinct, no stability question arises. */
  function Sort(prefer: Prefer, s: seq<Attempt>): seq<Attempt> {
    if s == [] then [] else Insert(prefer, s[0], Sort(prefer, s[1..]))
  }

  /** Nothing stands before something with a smaller key. */
  ghost predicate Sorted(prefer: Prefer, s: seq<Attempt>) {
    s == [] || ((forall b <- s[1..] :: !Less(OrderKey(prefer, b), OrderKey(prefer, s[0]))) && Sorted(prefer, s[1..]))
  }

  lemma {:induction false} InsertMembers(prefer: Prefer, a: Attempt, s: seq<Attempt>)
    ensures forall b :: b in Insert(prefer, a, s) <==> b == a || b in s
  {
    if s != [] && !Less(OrderKey(prefer, a), OrderKey(prefer, s[0])) {
      InsertMembers(prefer, a, s[1..]);
    }
  }

  /** What is not below b is not below anything under b. */
  lemma NotBelow(a: Key, b: Key, c: Key)
    requires Less(a, b) && !Less(c, b)
    ensures !Less(c, a)
  {
  }

  lemma {:induction false} InsertSorted(prefer: Prefer, a: Attempt, s: seq<Attempt>)
    requires Sorted(prefer, s)
    ensures Sorted(prefer, Insert(prefer, a, s))
  {
    var r := Insert(prefer, a, s);
    if s == [] {
    } else if Less(OrderKey(prefer, a), OrderKey(prefer, s[0])) {
      assert r[1..] == s;
      forall b <- s ensures !Less(OrderKey(prefer, b), OrderKey(prefer, a)) {
        assert s == [s[0]] + s[1..];
        NotBelow(OrderKey(prefer, a), OrderKey(prefer, s[0]), OrderKey(prefer, b));
      }
    } else {
      InsertSorted(prefer, a, s[1..]);
      InsertMembers(prefer, a, s[1..]);
      assert r[1..] == Insert(prefer, a, s[1..]);
    }
  }

  lemma {:induction false} SortSorts(prefer: Prefer, s: seq<Attempt>)
    ensures Sorted(prefer, Sort(prefer, s))
    ensures forall b :: b in Sort(prefer, s) <==> b in s
  {
    if s != [] {
      SortSorts(prefer, s[1..]);
      InsertSorted(prefer, s[0], Sort(prefer, s[1..]));
      InsertMembers(prefer, s[0], Sort(prefer, s[1..]));
      assert s == [s[0]] + s[1..];
    }
  }

  // ---- the search -----------------------------------------------------------

  /** The fit of an attempt is a function of the attempt: the solver's sizing is pure. */
  type Fitter<!P, !E> = Attempt -> Verdict<P, E>

  /** winner is the first fit in s; visited the attempts tried; lastErr the failure just before the end. */
  datatype Found<E> = Found(winner: Option<Attempt>, visited: seq<Attempt>, lastErr: Option<E>)

  function FirstFit<P, E>(fit: Fitter<P, E>, s: seq<Attempt>, visited: seq<Attempt>, lastErr: Option<E>): Found<E>
    decreases |s|
  {
    if s == [] then Found(None, visited, lastErr)
    else
      match fit(s[0])
      case Fits(_) => Found(Some(s[0]), visited + [s[0]], lastErr)
      case Infeasible(e) => FirstFit(fit, s[1..], visited + [s[0]], Some(e))
  }

  /** max(lattice, key=(tp_idx, idx_idx, cap_idx, draft_off)): the first of the greatest. */
  function CornerLess(a: Attempt, b: Attempt): bool {
    Less(Key(a.tpIdx, a.idxIdx, a.capIdx, Bit(a.draftOff), 0), Key(b.tpIdx, b.idxIdx, b.capIdx, Bit(b.draftOff), 0))
  }

  function Cheapest(lattice: seq<Attempt>): (a: Attempt)
    requires lattice != []
    ensures a in lattice
  {
    var n := |lattice| - 1;
    if n == 0 then lattice[0]
    else
      var best := Cheapest(lattice[..n]);
      if CornerLess(best, lattice[n]) then lattice[n] else best
  }

  lemma {:induction false} NothingFits<P, E>(
      fit: Fitter<P, E>, s: seq<Attempt>, visited: seq<Attempt>, lastErr: Option<E>)
    requires FirstFit(fit, s, visited, lastErr).winner == None
    ensures FirstFit(fit, s, visited, lastErr).visited == visited + s
    ensures forall a <- s :: fit(a).Infeasible?
    ensures FirstFit(fit, s, visited, lastErr).lastErr
      == if s == [] then lastErr else Some(fit(s[|s| - 1]).error)
    decreases |s|
  {
    if s != [] {
      NothingFits(fit, s[1..], visited + [s[0]], Some(fit(s[0]).error));
      assert s == [s[0]] + s[1..];
    }
  }

  lemma {:induction false} FirstFits<P, E>(
      fit: Fitter<P, E>, s: seq<Attempt>, visited: seq<Attempt>, lastErr: Option<E>)
      returns (i: nat)
    requires FirstFit(fit, s, visited, lastErr).winner.Some?
    ensures i < |s| && FirstFit(fit, s, visited, lastErr).winner == Some(s[i]) && fit(s[i]).Fits?
    ensures forall j :: 0 <= j < i ==> fit(s[j]).Infeasible?
    ensures FirstFit(fit, s, visited, lastErr).visited == visited + s[..i + 1]
    ensures FirstFit(fit, s, visited, lastErr).lastErr == if i == 0 then lastErr else Some(fit(s[i - 1]).error)
    decreases |s|
  {
    i := 0;
    if fit(s[0]).Infeasible? {
      i := FirstFits(fit, s[1..], visited + [s[0]], Some(fit(s[0]).error));
      assert s[..i + 2] == [s[0]] + s[1..][..i + 1];
      i := i + 1;
    }
  }

  /** The walk f ended at attempt i: it fits, all before it were tried and did not, and the last error is theirs. */
  ghost predicate EndsAt<P, E>(fit: Fitter<P, E>, s: seq<Attempt>, f: Found<E>, i: nat) {
    && i < |s| && f.winner == Some(s[i]) && fit(s[i]).Fits? && f.visited == s[..i + 1]
    && (forall j :: 0 <= j < i ==> fit(s[j]).Infeasible?)
    && f.lastErr == if i == 0 then None else Some(fit(s[i - 1]).error)
  }

  /** The walk tries the attempts up to the first fit, or all of them. */
  lemma WalkStopsAtFirstFit<P, E>(fit: Fitter<P, E>, s: seq<Attempt>)
    ensures var f := FirstFit(fit, s, [], None);
      if f.winner.None? then f.visited == s && forall a <- s :: fit(a).Infeasible?
      else exists i: nat :: EndsAt(fit, s, f, i)
  {
    var f := FirstFit(fit, s, [], None);
    if f.winner.None? {
      NothingFits(fit, s, [], None);
    } else {
      var i := FirstFits(fit, s, [], None);
      assert [] + s[..i + 1] == s[..i + 1];
      assert EndsAt(fit, s, f, i);
    }
  }

  lemma {:induction false} SortedBefore(prefer: Prefer, s: seq<Attempt>, i: nat, j: nat)
    requires Sorted(prefer, s) && i < j < |s|
    ensures !Less(OrderKey(prefer, s[j]), OrderKey(prefer, s[i]))
  {
    if i > 0 {
      SortedBefore(prefer, s[1..], i - 1, j - 1);
    } else {
      assert s[j] == s[1..][j - 1];
    }
  }

  ghost predicate Feasible<P, E>(fit: Fitter<P, E>, lattice: seq<Attempt>, a: Attempt) {
    a in lattice && fit(a).Fits?
  }

  /** w fits, and nothing that fits has a smaller key. */
  ghost predicate IsLeast<P(!new), E(!new)>(fit: Fitter<P, E>, lattice: seq<Attempt>, prefer: Prefer, w: Attempt) {
    Feasible(fit, lattice, w)
    && forall b :: Feasible(fit, lattice, b) ==> !Less(OrderKey(prefer, b), OrderKey(prefer, w))
  }

  lemma FirstIsLeast<P(!new), E(!new)>(fit: Fitter<P, E>, order: seq<Attempt>, prefer: Prefer, i: nat, b: Attempt)
    requires Sorted(prefer, order) && i < |order| && (forall j :: 0 <= j < i ==> fit(order[j]).Infeasible?)
    requires Feasible(fit, order, b)
    ensures !Less(OrderKey(prefer, b), OrderKey(prefer, order[i]))
  {
    var k :| 0 <= k < |order| && order[k] == b;
    if k > i {
      SortedBefore(prefer, order, i, k);
    }
  }

  /** Sort, scan, stop: that is choosing the fit with the least key, and finding none only if there is none. */
  lemma SearchDecides<P(!new), E(!new)>(fit: Fitter<P, E>, lattice: seq<Attempt>, prefer: Prefer)
    ensures match FirstFit(fit, Sort(prefer, lattice), [], None).winner
      case None => forall a <- lattice :: fit(a).Infeasible?
      case Some(w) => IsLeast(fit, lattice, prefer, w)
  {
    var order := Sort(prefer, lattice);
    SortSorts(prefer, lattice);
    match FirstFit(fit, order, [], None).winner
    case None =>
      NothingFits(fit, order, [], None);
      assert forall a <- lattice :: a in order;
    case Some(w) =>
      var i := FirstFits(fit, order, [], None);
      forall b | Feasible(fit, lattice, b) ensures !Less(OrderKey(prefer, b), OrderKey(prefer, w)) {
        FirstIsLeast(fit, order, prefer, i, b);
      }
  }

  /** What the search half of solve answers: the winner, or the refusal of the cheapest corner. */
  ghost function Outcome<P(!new), E(!new)>(fit: Fitter<P, E>, lattice: seq<Attempt>, prefer: Prefer)
      : Verdict<Attempt, E>
    requires lattice != []
  {
    SearchDecides(fit, lattice, prefer);
    match FirstFit(fit, Sort(prefer, lattice), [], None).winner
    case Some(w) => Fits(w)
    case None => Infeasible(fit(Cheapest(lattice)).error)
  }

  /** The verdicts computed so far; each is computed once. */
  class Memo<P(!new), E(!new)> {
    const fit: Fitter<P, E>
    var cache: map<Attempt, Verdict<P, E>>

    constructor (f: Fitter<P, E>)
      ensures fit == f && cache == map[] && Valid()
    {
      fit, cache := f, map[];
    }

    ghost predicate Valid()
      reads this
    {
      forall a <- cache :: cache[a] == fit(a)
    }

    method Evaluate(a: Attempt) returns (v: Verdict<P, E>)
      requires Valid()
      modifies this
      ensures Valid() && v == fit(a) && cache == old(cache)[a := v]
    {
      if a !in cache {
        cache := cache[a := fit(a)];
      }
      v := cache[a];
      assert cache == old(cache)[a := v];
    }

    /** _first_feasible: walk the lattice in preference order and stop at the first fit. */
    method FirstFeasible(lattice: seq<Attempt>, prefer: Prefer) returns (r: Found<E>)
      requires Valid()
      modifies this
      ensures Valid() && r == FirstFit(fit, Sort(prefer, lattice), [], None)
      ensures old(cache).Keys + (set a | a in r.visited) == cache.Keys
    {
      var order := Sort(prefer, lattice);
      var visited: seq<Attempt>, lastErr: Option<E> := [], None;
      for i := 0 to |order|
        invariant Valid()
        invariant FirstFit(fit, order[i..], visited, lastErr) == FirstFit(fit, order, [], None)
        invariant old(cache).Keys + (set a | a in visited) == cache.Keys
      {
        var a := order[i];
        visited := visited + [a];
        var v := Evaluate(a);
        match v
        case Fits(_) =>
          return Found(Some(a), visited, lastErr);
        case Infeasible(e) =>
          lastErr := Some(e);
      }
      return Found(None, visited, lastErr);
    }

    method Search(lattice: seq<Attempt>, prefer: Prefer) returns (r: Verdict<Attempt, E>)
      requires Valid() && lattice != []
      modifies this
      ensures Valid() && r == Outcome(fit, lattice, prefer)
    {
      var found := FirstFeasible(lattice, prefer);
      SearchDecides(fit, lattice, prefer);
      if found.winner.Some? {
        return Fits(found.winner.value);
      }
      SortSorts(prefer, lattice);
      NothingFits(fit, Sort(prefer, lattice), [], None);
      var corner := Cheapest(lattice);
      assert corner in found.visited;
      return Infeasible(cache[corner].error);
    }
  }

  // ---- what a preference can and cannot change ------------------------------

  /**
   * A preference only orders. On one lattice all three succeed or refuse
   * together, and a refusal is the same error, that of the same corner.
   */
  lemma PreferenceNeverRefuses<P(!new), E(!new)>(fit: Fitter<P, E>, lattice: seq<Attempt>, p: Prefer, q: Prefer)
    requires lattice != []
    ensures var a, b := Outcome(fit, lattice, p), Outcome(fit, lattice, q);
      if a.Infeasible? then b == a else b.Fits?
  {
    SearchDecides(fit, lattice, p);
    SearchDecides(fit, lattice, q);
  }

  /** The winner is the one feasible point with the least key: the order decides, and leaves no tie. */
  lemma WinnerIsUnique<P(!new), E(!new)>(x: Axes, fit: Fitter<P, E>, lattice: seq<Attempt>, prefer: Prefer, a: Attempt)
    requires lattice != [] && forall b <- lattice :: OnLattice(x, b)
    ensures Outcome(fit, lattice, prefer) == Fits(a) <==> IsLeast(fit, lattice, prefer, a)
  {
    SearchDecides(fit, lattice, prefer);
    var o := Outcome(fit, lattice, prefer);
    if IsLeast(fit, lattice, prefer, a) {
      assert o.Fits?;
      var w := o.plans;
      assert !Less(OrderKey(prefer, a), OrderKey(prefer, w)) && !Less(OrderKey(prefer, w), OrderKey(prefer, a));
      KeysInjective(x, prefer, a, w);
    }
  }

  /** The corner whose refusal is reported has every priced option spent and the ask shed furthest. */
  lemma {:induction false} CheapestIsGreatest(lattice: seq<Attempt>)
    requires lattice != []
    ensures forall a <- lattice :: !CornerLess(Cheapest(lattice), a)
    decreases |lattice|
  {
    var n := |lattice| - 1;
    if n > 0 {
      CheapestIsGreatest(lattice[..n]);
      assert lattice == lattice[..n] + [lattice[n]];
    }
  }

  /**
   * On a lattice whose last TP degree offers an indexer mode and a tiering, that
   * corner is the last of everything: TP degree, indexer mode, rung, and the
   * draft dropped where that is offered.
   */
  lemma CornerOfLattice(x: Axes, lattice: seq<Attempt>)
    requires lattice != [] && x.setups != [] && x.caps != [] && x.drafts != []
    requires forall a :: a in lattice <==> OnLattice(x, a)
    requires var last := x.setups[|x.setups| - 1]; last.idxModes != [] && last.tiers != []
    ensures var c, last := Cheapest(lattice), x.setups[|x.setups| - 1];
      && c.tpIdx == |x.setups| - 1 && c.idxIdx == |last.idxModes| - 1 && c.capIdx == |x.caps| - 1
      && (c.draftOff <==> true in x.drafts)
  {
    var ti, c := |x.setups| - 1, Cheapest(lattice);
    var off := true in x.drafts;
    assert off in x.drafts by {
      assert x.drafts[0] in x.drafts;
    }
    var a := PointAt(x, ti, |x.setups[ti].idxModes| - 1, |x.caps| - 1, off, 0);
    CheapestIsGreatest(lattice);
    assert OnLattice(x, a) && OnLattice(x, c) && !CornerLess(c, a);
  }

  /** capacity: the ask stays whole whenever any feasible attempt keeps it whole. */
  lemma CapacityKeepsTheAsk<P(!new), E(!new)>(fit: Fitter<P, E>, lattice: seq<Attempt>, b: Attempt)
    requires Feasible(fit, lattice, b) && b.capIdx == 0
    ensures Outcome(fit, lattice, Capacity).Fits? && Outcome(fit, lattice, Capacity).plans.capIdx == 0
  {
    SearchDecides(fit, lattice, Capacity);
  }

  /** speed: no priced slowdown is bought whenever any feasible attempt buys none. */
  lemma SpeedPaysForNothing<P(!new), E(!new)>(fit: Fitter<P, E>, lattice: seq<Attempt>, b: Attempt)
    requires Feasible(fit, lattice, b) && b.tpIdx == 0 && b.idxIdx == 0
    ensures Outcome(fit, lattice, Speed).Fits?
    ensures Outcome(fit, lattice, Speed).plans.tpIdx == 0 && Outcome(fit, lattice, Speed).plans.idxIdx == 0
  {
    SearchDecides(fit, lattice, Speed);
  }

  /** balanced: the TP degree is escalated only when nothing fits at the first one. */
  lemma BalancedEscalatesTpLast<P(!new), E(!new)>(fit: Fitter<P, E>, lattice: seq<Attempt>, b: Attempt)
    requires Feasible(fit, lattice, b) && b.tpIdx == 0
    ensures Outcome(fit, lattice, Balanced).Fits? && Outcome(fit, lattice, Balanced).plans.tpIdx == 0
  {
    SearchDecides(fit, lattice, Balanced);
  }

  /** Dropping the draft never breaks a fit, and the lattice offers it. */
  ghost predicate DraftDroppable<P(!new), E(!new)>(fit: Fitter<P, E>, lattice: seq<Attempt>) {
    forall a :: Feasible(fit, lattice, a) ==> Feasible(fit, lattice, a.(draftOff := true))
  }

  lemma CheaperWithoutDraft(prefer: Prefer, a: Attempt)
    requires prefer != Speed
    ensures a.capIdx > 0 && !a.draftOff ==> Less(OrderKey(prefer, a.(draftOff := true)), OrderKey(prefer, a))
  {
  }

  /** balanced and capacity: the draft goes before any capacity does. */
  lemma DraftGoesFirst<P(!new), E(!new)>(fit: Fitter<P, E>, lattice: seq<Attempt>, prefer: Prefer)
    requires lattice != [] && prefer != Speed && DraftDroppable(fit, lattice)
    ensures match Outcome(fit, lattice, prefer)
      case Fits(w) => w.capIdx > 0 ==> w.draftOff
      case Infeasible(_) => true
  {
    SearchDecides(fit, lattice, prefer);
    match Outcome(fit, lattice, prefer)
    case Fits(w) =>
      assert Feasible(fit, lattice, w.(draftOff := true));
      CheaperWithoutDraft(prefer, w);
    case Infeasible(_) =>
  }
}
