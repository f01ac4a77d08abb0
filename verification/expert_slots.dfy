// Handing out expert slots: equal shares to the expert hosts, what is left to
// the TP GPUs (python/autoconfig/solver.py, expert_targets with the ratio set).
module ExpertSlots {
  import opened IntMath

  /** A GPU outside the TP group and how many slots its VRAM holds (negative when the margins exceed it). */
  datatype Host = Host(ordinal: int, cap: int)

  type Targets = map<int, int>

  datatype Granted =
    | Slots(targets: Targets)
    | BelowFloor(needed: int)
    | ExceedsVram(targets: Targets, missing: int)

  /** dict.get(ordinal, 0) */
  function Given(t: Targets, ordinal: int): int {
    if ordinal in t then t[ordinal] else 0
  }

  function Live(hosts: seq<Host>, t: Targets): seq<Host> {
    if hosts == [] then []
    else (if Given(t, hosts[0].ordinal) < hosts[0].cap then [hosts[0]] else []) + Live(hosts[1..], t)
  }

  /** Each host takes the share, or what still fits. */
  function Fill(live: seq<Host>, share: int, t: Targets, remaining: int): (Targets, int) {
    if live == [] then (t, remaining)
    else
      var h := live[0];
      var take := Min(share, h.cap - Given(t, h.ordinal));
      Fill(live[1..], share, t[h.ordinal := Given(t, h.ordinal) + take], remaining - take)
  }

  function HostRounds(hosts: seq<Host>, t: Targets, remaining: int, rounds: nat): (Targets, int)
    decreases rounds
  {
    var live := Live(hosts, t);
    if rounds == 0 || live == [] || remaining <= 0 then (t, remaining)
    else
      var (t', left) := Fill(live, remaining / |live|, t, remaining);
      HostRounds(hosts, t', left, rounds - 1)
  }

  function Overflow(tps: seq<int>, share: int, capEach: int, floor: nat, t: Targets): (Targets, int) {
    if tps == [] then (t, 0)
    else
      var g := tps[0];
      var take := Min(share, capEach - (Given(t, g) - floor));
      var (t', extra) := Overflow(tps[1..], share, capEach, floor, t[g := Given(t, g) + take]);
      (t', take + extra)
  }

  function Floors(tps: seq<int>, floor: nat): Targets {
    map g | g in tps :: floor
  }

  /** expert_targets, given the target number of slots and what a TP GPU can take beyond its floor. */
  function Grant(tps: seq<int>, hosts: seq<Host>, target: int, floor: nat, capEach: nat): Granted
    requires tps != []
  {
    var needed := floor * |tps|;
    if target - needed < 0 then BelowFloor(needed)
    else
      var (t, left) := HostRounds(hosts, Floors(tps, floor), target - needed, 2);
      if left > 0 then
        var (t', extra) := Overflow(tps, left / |tps|, capEach, floor, t);
        if left - extra > 0 then ExceedsVram(t', left - extra) else Slots(t')
      else Slots(t)
  }

  /** The allocator as it runs: a dictionary updated host by host. */
  method ExpertTargets(tps: seq<int>, hosts: seq<Host>, target: int, floor: nat, residual: int, slotBytes: int)
      returns (r: Granted)
    requires tps != [] && slotBytes > 0
    ensures r == Grant(tps, hosts, target, floor, Max(0, residual / slotBytes))
  {
    var targets: Targets := Floors(tps, floor);
    var remaining := target - floor * |tps|;
    if remaining < 0 {
      return BelowFloor(floor * |tps|);
    }
    ghost var goal := HostRounds(hosts, targets, remaining, 2);
    for round := 0 to 2
      invariant HostRounds(hosts, targets, remaining, 2 - round) == goal
    {
      var live := Live(hosts, targets);
      if live == [] || remaining <= 0 {
        break;
      }
      var share := remaining / |live|;
      targets, remaining := FillHosts(live, share, targets, remaining);
    }
    if remaining > 0 {
      var capEach := Max(0, residual / slotBytes);
      var extra;
      targets, extra := OverflowToTps(tps, remaining / |tps|, capEach, floor, targets);
      remaining := remaining - extra;
    }
    if remaining > 0 {
      return ExceedsVram(targets, remaining);
    }
    return Slots(targets);
  }

  method FillHosts(live: seq<Host>, share: int, t: Targets, before: int) returns (targets: Targets, remaining: int)
    ensures (targets, remaining) == Fill(live, share, t, before)
  {
    targets, remaining := t, before;
    for i := 0 to |live|
      invariant Fill(live[i..], share, targets, remaining) == Fill(live, share, t, before)
    {
      var h := live[i];
      var take := Min(share, h.cap - Given(targets, h.ordinal));
      targets := targets[h.ordinal := Given(targets, h.ordinal) + take];
      remaining := remaining - take;
    }
  }

  method OverflowToTps(tps: seq<int>, share: int, capEach: int, floor: nat, t: Targets)
      returns (targets: Targets, extra: int)
    ensures (targets, extra) == Overflow(tps, share, capEach, floor, t)
  {
    targets, extra := t, 0;
    for i := 0 to |tps|
      invariant var (t', e) := Overflow(tps[i..], share, capEach, floor, targets);
        (t', extra + e) == Overflow(tps, share, capEach, floor, t)
    {
      var take := Min(share, capEach - (Given(targets, tps[i]) - floor));
      targets := targets[tps[i] := Given(targets, tps[i]) + take];
      extra := extra + take;
    }
  }

  // ---- what is handed out ---------------------------------------------------

  function Ordinals(hosts: seq<Host>): seq<int> {
    seq(|hosts|, i requires 0 <= i < |hosts| => hosts[i].ordinal)
  }

  ghost predicate Distinct(s: seq<int>) {
    forall i, j :: 0 <= i < j < |s| ==> s[i] != s[j]
  }

  /** TP GPUs and hosts are different GPUs. */
  ghost predicate Box(tps: seq<int>, hosts: seq<Host>) {
    tps != [] && Distinct(tps + Ordinals(hosts))
  }

  /** Slots handed out to the GPUs of s; a GPU left out of the dictionary has none. */
  function Total(s: seq<int>, t: Targets): int {
    if s == [] then 0 else Given(t, s[0]) + Total(s[1..], t)
  }

  lemma {:induction false} TotalUntouched(s: seq<int>, t: Targets, g: int, v: int)
    requires g !in s
    ensures Total(s, t[g := v]) == Total(s, t)
  {
    if s != [] {
      TotalUntouched(s[1..], t, g, v);
    }
  }

  lemma {:induction false} TotalUpdate(s: seq<int>, t: Targets, g: int, v: int)
    requires Distinct(s) && g in s
    ensures Total(s, t[g := v]) == Total(s, t) - Given(t, g) + v
  {
    if s[0] == g {
      TotalUntouched(s[1..], t, g, v);
    } else {
      TotalUpdate(s[1..], t, g, v);
    }
  }

  /** Filling moves slots from the remainder to the hosts and loses none. */
  lemma {:induction false} FillConserves(all: seq<int>, live: seq<Host>, share: int, t: Targets, remaining: int)
    requires Distinct(all) && forall h <- live :: h.ordinal in all
    ensures var (t', left) := Fill(live, share, t, remaining);
      Total(all, t') + left == Total(all, t) + remaining
    decreases |live|
  {
    if live != [] {
      var h := live[0];
      var take := Min(share, h.cap - Given(t, h.ordinal));
      TotalUpdate(all, t, h.ordinal, Given(t, h.ordinal) + take);
      FillConserves(all, live[1..], share, t[h.ordinal := Given(t, h.ordinal) + take], remaining - take);
    }
  }

  lemma {:induction false} LiveAreHosts(hosts: seq<Host>, t: Targets)
    ensures |Live(hosts, t)| <= |hosts|
    ensures forall h <- Live(hosts, t) :: h in hosts && Given(t, h.ordinal) < h.cap
    ensures forall h <- hosts :: Given(t, h.ordinal) < h.cap ==> h in Live(hosts, t)
  {
    if hosts != [] {
      LiveAreHosts(hosts[1..], t);
    }
  }

  lemma InOrdinals(hosts: seq<Host>)
    ensures forall h <- hosts :: h.ordinal in Ordinals(hosts)
  {
    forall h <- hosts ensures h.ordinal in Ordinals(hosts) {
      var i :| 0 <= i < |hosts| && hosts[i] == h;
      assert Ordinals(hosts)[i] == h.ordinal;
    }
  }

  lemma {:induction false} RoundsConserve(all: seq<int>, hosts: seq<Host>, t: Targets, remaining: int, rounds: nat)
    requires Distinct(all) && forall h <- hosts :: h.ordinal in all
    ensures var (t', left) := HostRounds(hosts, t, remaining, rounds);
      Total(all, t') + left == Total(all, t) + remaining
    decreases rounds
  {
    var live := Live(hosts, t);
    if !(rounds == 0 || live == [] || remaining <= 0) {
      var (t', left) := Fill(live, remaining / |live|, t, remaining);
      assert Total(all, t') + left == Total(all, t) + remaining by {
        LiveAreHosts(hosts, t);
        FillConserves(all, live, remaining / |live|, t, remaining);
      }
      RoundsConserve(all, hosts, t', left, rounds - 1);
    }
  }

  lemma {:induction false} OverflowConserves(
      all: seq<int>, tps: seq<int>, share: int, capEach: int, floor: nat, t: Targets)
    requires Distinct(all) && forall g <- tps :: g in all
    ensures var (t', extra) := Overflow(tps, share, capEach, floor, t);
      Total(all, t') == Total(all, t) + extra
    decreases |tps|
  {
    if tps != [] {
      var g := tps[0];
      var take := Min(share, capEach - (Given(t, g) - floor));
      TotalUpdate(all, t, g, Given(t, g) + take);
      OverflowConserves(all, tps[1..], share, capEach, floor, t[g := Given(t, g) + take]);
    }
  }

  lemma {:induction false} TotalConstant(s: seq<int>, t: Targets, c: int)
    requires forall g <- s :: Given(t, g) == c
    ensures Total(s, t) == c * |s|
  {
    if s != [] {
      TotalConstant(s[1..], t, c);
      assert c * |s| == c * |s[1..]| + c;
    }
  }

  lemma {:induction false} TotalConcat(a: seq<int>, b: seq<int>, t: Targets)
    ensures Total(a + b, t) == Total(a, t) + Total(b, t)
    decreases |a|
  {
    if a == [] {
      assert a + b == b;
    } else {
      assert (a + b)[1..] == a[1..] + b;
      TotalConcat(a[1..], b, t);
    }
  }

  lemma FloorsTotal(tps: seq<int>, others: seq<int>, floor: nat)
    requires forall g <- tps :: g !in others
    ensures Total(tps + others, Floors(tps, floor)) == floor * |tps|
  {
    var t := Floors(tps, floor);
    TotalConcat(tps, others, t);
    TotalConstant(tps, t, floor);
    TotalConstant(others, t, 0);
  }

  // ---- who gets how much ----------------------------------------------------

  lemma DistinctTail(s: seq<int>)
    requires s != []
    ensures Distinct(s) <==> Distinct(s[1..]) && s[0] !in s[1..]
  {
    var tail := s[1..];
    if Distinct(tail) && s[0] !in tail {
      forall i, j | 0 <= i < j < |s| ensures s[i] != s[j] {
        assert s[j] == tail[j - 1];
        assert i > 0 ==> s[i] == tail[i - 1];
      }
    }
    if Distinct(s) {
      assert forall i :: 0 <= i < |tail| ==> tail[i] == s[i + 1];
    }
  }

  lemma OrdinalsTail(hosts: seq<Host>)
    requires hosts != []
    ensures Ordinals(hosts)[0] == hosts[0].ordinal && Ordinals(hosts)[1..] == Ordinals(hosts[1..])
  {
  }

  function Taken(h: Host, share: int, t: Targets): int {
    Min(share, h.cap - Given(t, h.ordinal))
  }

  /** Filling leaves GPUs outside the list alone. */
  lemma {:induction false} FillOthers(live: seq<Host>, share: int, t: Targets, remaining: int, g: int)
    requires g !in Ordinals(live)
    ensures Given(Fill(live, share, t, remaining).0, g) == Given(t, g)
    decreases |live|
  {
    if live != [] {
      var h, rest := live[0], live[1..];
      OrdinalsTail(live);
      assert g !in Ordinals(rest);
      assert h.ordinal in Ordinals(live);
      var take := Taken(h, share, t);
      FillOthers(rest, share, t[h.ordinal := Given(t, h.ordinal) + take], remaining - take, g);
    }
  }

  /** Filling gives each host of the list its share, or what still fits. */
  lemma {:induction false} FillEach(live: seq<Host>, share: int, t: Targets, remaining: int, h: Host)
    requires Distinct(Ordinals(live)) && h in live
    ensures Given(Fill(live, share, t, remaining).0, h.ordinal) == Given(t, h.ordinal) + Taken(h, share, t)
    decreases |live|
  {
    var first, rest := live[0], live[1..];
    var t1 := t[first.ordinal := Given(t, first.ordinal) + Taken(first, share, t)];
    OrdinalsTail(live);
    DistinctTail(Ordinals(live));
    if h == first {
      FillOthers(rest, share, t1, remaining - Taken(first, share, t), h.ordinal);
    } else {
      InOrdinals(rest);
      assert h in rest && h.ordinal in Ordinals(rest);
      FillEach(rest, share, t1, remaining - Taken(first, share, t), h);
    }
  }

  /** Filling takes no more than a share each. */
  lemma {:induction false} FillLeftAtLeast(live: seq<Host>, share: int, t: Targets, remaining: int)
    ensures Fill(live, share, t, remaining).1 >= remaining - |live| * share
    decreases |live|
  {
    if live != [] {
      var h, rest := live[0], live[1..];
      FillLeftAtLeast(rest, share, t[h.ordinal := Given(t, h.ordinal) + Taken(h, share, t)],
                      remaining - Taken(h, share, t));
      MulSucc(|rest|, share);
    }
  }

  lemma RestHasRoom(live: seq<Host>, share: int, t: Targets)
    requires live != [] && Distinct(Ordinals(live)) && forall h <- live :: share <= h.cap - Given(t, h.ordinal)
    ensures Distinct(Ordinals(live[1..]))
    ensures var t1 := t[live[0].ordinal := Given(t, live[0].ordinal) + share];
      forall r <- live[1..] :: share <= r.cap - Given(t1, r.ordinal)
  {
    OrdinalsTail(live);
    DistinctTail(Ordinals(live));
    InOrdinals(live[1..]);
    assert forall r <- live[1..] :: r in live && r.ordinal != live[0].ordinal;
  }

  /** It takes exactly that where everyone has room for it. */
  lemma {:induction false} FillLeftExactly(live: seq<Host>, share: int, t: Targets, remaining: int)
    requires Distinct(Ordinals(live)) && forall h <- live :: share <= h.cap - Given(t, h.ordinal)
    ensures Fill(live, share, t, remaining).1 == remaining - |live| * share
    decreases |live|
  {
    if live != [] {
      var h, rest := live[0], live[1..];
      var t1 := t[h.ordinal := Given(t, h.ordinal) + share];
      assert Distinct(Ordinals(rest)) && forall r <- rest :: share <= r.cap - Given(t1, r.ordinal) by {
        RestHasRoom(live, share, t);
      }
      FillLeftExactly(rest, share, t1, remaining - share);
      MulSucc(|rest|, share);
    }
  }

  lemma {:induction false} LiveDistinct(hosts: seq<Host>, t: Targets)
    requires Distinct(Ordinals(hosts))
    ensures Distinct(Ordinals(Live(hosts, t)))
    ensures forall g <- Ordinals(Live(hosts, t)) :: g in Ordinals(hosts)
  {
    if hosts != [] {
      var live := Live(hosts, t);
      OrdinalsTail(hosts);
      DistinctTail(Ordinals(hosts));
      LiveDistinct(hosts[1..], t);
      if Given(t, hosts[0].ordinal) < hosts[0].cap {
        OrdinalsTail(live);
        assert live[1..] == Live(hosts[1..], t);
        DistinctTail(Ordinals(live));
        assert Ordinals(live) == [hosts[0].ordinal] + Ordinals(live[1..]);
      } else {
        assert live == Live(hosts[1..], t);
      }
    }
  }

  /** No host holds a negative number or more than it can. */
  ghost predicate WithinCaps(hosts: seq<Host>, t: Targets) {
    forall h <- hosts :: 0 <= Given(t, h.ordinal) <= Max(0, h.cap)
  }

  lemma {:induction false} RoundsResult(hosts: seq<Host>, t: Targets, remaining: int, rounds: nat)
    requires Distinct(Ordinals(hosts)) && WithinCaps(hosts, t) && remaining >= 0
    ensures var (t', left) := HostRounds(hosts, t, remaining, rounds);
      && WithinCaps(hosts, t') && left >= 0
      && forall g :: g !in Ordinals(hosts) ==> Given(t', g) == Given(t, g)
    decreases rounds
  {
    var live := Live(hosts, t);
    if !(rounds == 0 || live == [] || remaining <= 0) {
      var share := remaining / |live|;
      var (t', left) := Fill(live, share, t, remaining);
      LiveAreHosts(hosts, t);
      LiveDistinct(hosts, t);
      FillLeftAtLeast(live, share, t, remaining);
      ShareFits(remaining, |live|);
      forall h <- hosts ensures 0 <= Given(t', h.ordinal) <= Max(0, h.cap) {
        if h.ordinal in Ordinals(live) {
          SameOrdinal(hosts, live, h);
          FillEach(live, share, t, remaining, h);
        } else {
          FillOthers(live, share, t, remaining, h.ordinal);
        }
      }
      forall g | g !in Ordinals(hosts) ensures Given(t', g) == Given(t, g) {
        FillOthers(live, share, t, remaining, g);
      }
      RoundsResult(hosts, t', left, rounds - 1);
    }
  }

  lemma ShareFits(remaining: int, n: nat)
    requires n > 0 && remaining >= 0
    ensures remaining / n >= 0 && n * (remaining / n) + remaining % n == remaining
  {
  }

  lemma SameOrdinal(hosts: seq<Host>, live: seq<Host>, h: Host)
    requires Distinct(Ordinals(hosts)) && h in hosts && h.ordinal in Ordinals(live)
    requires forall l <- live :: l in hosts
    ensures h in live
  {
    var i :| 0 <= i < |live| && Ordinals(live)[i] == h.ordinal;
    assert live[i] in live;
    var j :| 0 <= j < |hosts| && hosts[j] == h;
    var k :| 0 <= k < |hosts| && hosts[k] == live[i];
    assert Ordinals(hosts)[j] == Ordinals(hosts)[k];
  }

  lemma {:induction false} OverflowOthers(tps: seq<int>, share: int, capEach: int, floor: nat, t: Targets, g: int)
    requires g !in tps
    ensures Given(Overflow(tps, share, capEach, floor, t).0, g) == Given(t, g)
    decreases |tps|
  {
    if tps != [] {
      var take := Min(share, capEach - (Given(t, tps[0]) - floor));
      OverflowOthers(tps[1..], share, capEach, floor, t[tps[0] := Given(t, tps[0]) + take], g);
    }
  }

  /** Every TP GPU, still at its floor, takes the same. */
  lemma {:induction false} OverflowEach(tps: seq<int>, share: int, capEach: nat, floor: nat, t: Targets, g: int)
    requires Distinct(tps) && Given(t, g) == floor && g in tps
    ensures Given(Overflow(tps, share, capEach, floor, t).0, g) == floor + Min(share, capEach)
    decreases |tps|
  {
    var first, rest := tps[0], tps[1..];
    var t1 := t[first := Given(t, first) + Min(share, capEach - (Given(t, first) - floor))];
    DistinctTail(tps);
    if g == first {
      OverflowOthers(rest, share, capEach, floor, t1, g);
    } else {
      OverflowEach(rest, share, capEach, floor, t1, g);
    }
  }

  lemma {:induction false} OverflowSum(tps: seq<int>, share: int, capEach: nat, floor: nat, t: Targets)
    requires Distinct(tps) && forall g <- tps :: Given(t, g) == floor
    ensures Overflow(tps, share, capEach, floor, t).1 == |tps| * Min(share, capEach)
    decreases |tps|
  {
    if tps != [] {
      var first, rest, take := tps[0], tps[1..], Min(share, capEach);
      var t1 := t[first := floor + take];
      assert Distinct(rest) && forall g <- rest :: Given(t1, g) == floor by {
        DistinctTail(tps);
        assert forall g <- rest :: g in tps && g != first;
      }
      OverflowSum(rest, share, capEach, floor, t1);
      assert Given(t, first) == floor;
      MulSucc(|rest|, take);
    }
  }

  lemma OverflowResult(tps: seq<int>, share: int, capEach: nat, floor: nat, t: Targets)
    requires Distinct(tps) && forall g <- tps :: Given(t, g) == floor
    ensures var (t', extra) := Overflow(tps, share, capEach, floor, t);
      && extra == |tps| * Min(share, capEach)
      && (forall g <- tps :: Given(t', g) == floor + Min(share, capEach))
      && (forall g :: g !in tps ==> Given(t', g) == Given(t, g))
  {
    OverflowSum(tps, share, capEach, floor, t);
    var t' := Overflow(tps, share, capEach, floor, t).0;
    forall g <- tps ensures Given(t', g) == floor + Min(share, capEach) {
      OverflowEach(tps, share, capEach, floor, t, g);
    }
    forall g | g !in tps ensures Given(t', g) == Given(t, g) {
      OverflowOthers(tps, share, capEach, floor, t, g);
    }
  }

  lemma SplitBox(tps: seq<int>, hosts: seq<Host>)
    requires Box(tps, hosts)
    ensures Distinct(tps) && Distinct(Ordinals(hosts))
    ensures forall g <- tps :: g !in Ordinals(hosts)
    ensures forall h <- hosts :: h.ordinal !in tps && h.ordinal in Ordinals(hosts)
  {
    var all, n := tps + Ordinals(hosts), |tps|;
    assert forall i :: 0 <= i < n ==> all[i] == tps[i];
    assert forall i :: 0 <= i < |hosts| ==> all[n + i] == Ordinals(hosts)[i];
    InOrdinals(hosts);
  }

  lemma AfterHosts(tps: seq<int>, hosts: seq<Host>, target: int, floor: nat)
    requires Box(tps, hosts) && target >= floor * |tps|
    ensures var (t, left) := HostRounds(hosts, Floors(tps, floor), target - floor * |tps|, 2);
      && left >= 0 && WithinCaps(hosts, t) && forall g <- tps :: Given(t, g) == floor
  {
    SplitBox(tps, hosts);
    RoundsResult(hosts, Floors(tps, floor), target - floor * |tps|, 2);
  }

  // ---- the level the hosts are filled to --------------------------------------

  /** Slots on the hosts when each is filled to the level, or to its capacity below it. */
  function FilledTo(hosts: seq<Host>, level: int): int {
    if hosts == [] then 0 else Min(level, Max(0, hosts[0].cap)) + FilledTo(hosts[1..], level)
  }

  function CountAbove(hosts: seq<Host>, level: int): nat {
    if hosts == [] then 0 else (if hosts[0].cap > level then 1 else 0) + CountAbove(hosts[1..], level)
  }

  /** Each round raises the level by an even share of what is left, over the hosts still above it. */
  function LevelAfter(hosts: seq<Host>, remaining: int, level: int, rounds: nat): int
    decreases rounds
  {
    var n, left := CountAbove(hosts, level), remaining - FilledTo(hosts, level);
    if rounds == 0 || n == 0 then level else LevelAfter(hosts, remaining, level + left / n, rounds - 1)
  }

  /** What the hosts leave of the remaining slots, from the capacities alone. */
  function LeftOver(hosts: seq<Host>, remaining: int): int {
    remaining - FilledTo(hosts, LevelAfter(hosts, remaining, 0, 2))
  }

  /** Every host holds the level, or its capacity below it. */
  ghost predicate AtLevel(hosts: seq<Host>, t: Targets, level: int) {
    level >= 0 && forall h <- hosts :: Given(t, h.ordinal) == Min(level, Max(0, h.cap))
  }

  lemma {:induction false} LiveCount(hosts: seq<Host>, t: Targets, level: int)
    requires AtLevel(hosts, t, level)
    ensures |Live(hosts, t)| == CountAbove(hosts, level)
    ensures forall h <- hosts :: h in Live(hosts, t) <==> h.cap > level
  {
    if hosts != [] {
      LiveCount(hosts[1..], t, level);
      LiveAreHosts(hosts, t);
    }
  }

  lemma {:induction false} TotalAtLevel(hosts: seq<Host>, t: Targets, level: int)
    requires AtLevel(hosts, t, level)
    ensures Total(Ordinals(hosts), t) == FilledTo(hosts, level)
  {
    if hosts != [] {
      OrdinalsTail(hosts);
      TotalAtLevel(hosts[1..], t, level);
    }
  }

  lemma {:induction false} LevelStays(hosts: seq<Host>, remaining: int, level: int, rounds: nat)
    requires remaining == FilledTo(hosts, level) || CountAbove(hosts, level) == 0
    ensures LevelAfter(hosts, remaining, level, rounds) == level
    decreases rounds
  {
    var n := CountAbove(hosts, level);
    if rounds > 0 && n > 0 {
      DivModUnique(0, 0, n, 0);
      LevelStays(hosts, remaining, level, rounds - 1);
    }
  }

  /** One round raises every host to the higher level. */
  lemma RoundRaises(hosts: seq<Host>, t: Targets, left: int, level: int)
    requires Distinct(Ordinals(hosts)) && AtLevel(hosts, t, level) && left > 0 && CountAbove(hosts, level) > 0
    ensures var share := left / CountAbove(hosts, level);
      var (t', left') := Fill(Live(hosts, t), share, t, left);
      && AtLevel(hosts, t', level + share)
      && FilledTo(hosts, level + share) + left' == FilledTo(hosts, level) + left
      && left' >= 0
  {
    var live, n := Live(hosts, t), CountAbove(hosts, level);
    LiveCount(hosts, t, level);
    var share := left / n;
    ShareFits(left, n);
    var (t', left') := Fill(live, share, t, left);
    LiveDistinct(hosts, t);
    LiveAreHosts(hosts, t);
    InOrdinals(hosts);
    forall h <- hosts ensures Given(t', h.ordinal) == Min(level + share, Max(0, h.cap)) {
      if h in live {
        FillEach(live, share, t, left, h);
      } else {
        if h.ordinal in Ordinals(live) {
          SameOrdinal(hosts, live, h);
        }
        FillOthers(live, share, t, left, h.ordinal);
      }
    }
    FillConserves(Ordinals(hosts), live, share, t, left);
    TotalAtLevel(hosts, t, level);
    TotalAtLevel(hosts, t', level + share);
    FillLeftAtLeast(live, share, t, left);
  }

  lemma {:induction false} RoundsRaise(hosts: seq<Host>, t: Targets, remaining: int, level: int, rounds: nat)
    requires Distinct(Ordinals(hosts)) && AtLevel(hosts, t, level) && remaining >= FilledTo(hosts, level)
    ensures var (t', left) := HostRounds(hosts, t, remaining - FilledTo(hosts, level), rounds);
      var top := LevelAfter(hosts, remaining, level, rounds);
      AtLevel(hosts, t', top) && left == remaining - FilledTo(hosts, top)
    decreases rounds
  {
    var left, n := remaining - FilledTo(hosts, level), CountAbove(hosts, level);
    LiveCount(hosts, t, level);
    if left == 0 || n == 0 {
      LevelStays(hosts, remaining, level, rounds);
    } else if rounds > 0 {
      RoundRaises(hosts, t, left, level);
      var (t', left') := Fill(Live(hosts, t), left / n, t, left);
      RoundsRaise(hosts, t', remaining, level + left / n, rounds - 1);
    }
  }

  lemma {:induction false} EmptyBelow(hosts: seq<Host>)
    ensures FilledTo(hosts, 0) == 0
  {
    if hosts != [] {
      EmptyBelow(hosts[1..]);
    }
  }

  /** The two rounds in closed form: one level for all hosts, found from the capacities. */
  lemma TwoRounds(tps: seq<int>, hosts: seq<Host>, target: int, floor: nat)
    requires Box(tps, hosts) && target >= floor * |tps|
    ensures var remaining := target - floor * |tps|;
      var (t, left) := HostRounds(hosts, Floors(tps, floor), remaining, 2);
      AtLevel(hosts, t, LevelAfter(hosts, remaining, 0, 2)) && left == LeftOver(hosts, remaining)
  {
    SplitBox(tps, hosts);
    EmptyBelow(hosts);
    assert forall h <- hosts :: Given(Floors(tps, floor), h.ordinal) == 0;
    RoundsRaise(hosts, Floors(tps, floor), target - floor * |tps|, 0, 2);
  }

  /** What the TP GPUs cannot take of left. */
  function Missing(left: int, n: nat, capEach: nat): int
    requires n > 0
  {
    left - n * Min(left / n, capEach)
  }

  lemma MissingExactly(left: int, n: nat, capEach: nat)
    requires n > 0 && left >= 0
    ensures Missing(left, n, capEach) >= 0
    ensures Missing(left, n, capEach) > 0 <==> left % n != 0 || left / n > capEach
    ensures Missing(left, n, capEach) > 0 ==> left / n >= capEach || Missing(left, n, capEach) < n
  {
    var q := left / n;
    ShareFits(left, n);
    if q > capEach {
      MulLe(capEach + 1, q, n);
      assert n * (capEach + 1) == n * capEach + n;
    }
  }

  lemma GrantCases(tps: seq<int>, hosts: seq<Host>, target: int, floor: nat, capEach: nat)
    requires Box(tps, hosts) && target >= floor * |tps|
    ensures var g, remaining := Grant(tps, hosts, target, floor, capEach), target - floor * |tps|;
      var left := LeftOver(hosts, remaining);
      && left >= 0 && !g.BelowFloor?
      && WithinCaps(hosts, g.targets) && AtLevel(hosts, g.targets, LevelAfter(hosts, remaining, 0, 2))
      && (forall d <- tps :: Given(g.targets, d) == floor + if left > 0 then Min(left / |tps|, capEach) else 0)
      && (g.ExceedsVram? <==> left > 0 && Missing(left, |tps|, capEach) > 0)
      && (g.ExceedsVram? ==> g.missing == Missing(left, |tps|, capEach))
  {
    SplitBox(tps, hosts);
    AfterHosts(tps, hosts, target, floor);
    TwoRounds(tps, hosts, target, floor);
    var (t, left) := HostRounds(hosts, Floors(tps, floor), target - floor * |tps|, 2);
    if left > 0 {
      OverflowResult(tps, left / |tps|, capEach, floor, t);
    }
  }

  /** Hosts stay within their capacity, TP GPUs between their floor and floor plus cap, whether or not it fits. */
  lemma GrantWithinCaps(tps: seq<int>, hosts: seq<Host>, target: int, floor: nat, capEach: nat)
    requires Box(tps, hosts) && !Grant(tps, hosts, target, floor, capEach).BelowFloor?
    ensures var t := Grant(tps, hosts, target, floor, capEach).targets;
      WithinCaps(hosts, t) && forall g <- tps :: floor <= Given(t, g) <= floor + capEach
  {
    GrantCases(tps, hosts, target, floor, capEach);
    ShareFits(LeftOver(hosts, target - floor * |tps|), |tps|);
  }

  /** Each host ends at one common level or at its capacity, and the TP GPUs share the rest evenly. */
  lemma GrantLevels(tps: seq<int>, hosts: seq<Host>, target: int, floor: nat, capEach: nat)
    requires Box(tps, hosts) && target >= floor * |tps|
    ensures var t, remaining := Grant(tps, hosts, target, floor, capEach).targets, target - floor * |tps|;
      && AtLevel(hosts, t, LevelAfter(hosts, remaining, 0, 2))
      && forall g <- tps :: Given(t, g) == floor + Min(LeftOver(hosts, remaining) / |tps|, capEach)
  {
    GrantCases(tps, hosts, target, floor, capEach);
    DivModUnique(0, 0, |tps|, 0);
  }

  /**
   * Exactly when the target is refused: what the hosts leave at their common
   * level does not divide evenly among the TP GPUs, or is more than they hold.
   * So a refusal means that every TP GPU is at its cap or that fewer slots are
   * missing than there are TP GPUs.
   */
  lemma RefusedExactly(tps: seq<int>, hosts: seq<Host>, target: int, floor: nat, capEach: nat)
    requires Box(tps, hosts) && target >= floor * |tps|
    ensures var g, left := Grant(tps, hosts, target, floor, capEach), LeftOver(hosts, target - floor * |tps|);
      && (g.ExceedsVram? <==> left % |tps| != 0 || left / |tps| > capEach)
      && (g.ExceedsVram? ==> g.missing < |tps| || forall d <- tps :: Given(g.targets, d) == floor + capEach)
  {
    GrantCases(tps, hosts, target, floor, capEach);
    var left := LeftOver(hosts, target - floor * |tps|);
    MissingExactly(left, |tps|, capEach);
    if left == 0 {
      DivModUnique(0, 0, |tps|, 0);
    }
  }

  /** Slots handed out plus slots missing are always the target; a normal return hands out exactly the target. */
  lemma GrantConserves(tps: seq<int>, hosts: seq<Host>, target: int, floor: nat, capEach: nat)
    requires Box(tps, hosts)
    ensures var all := tps + Ordinals(hosts);
      match Grant(tps, hosts, target, floor, capEach)
      case Slots(t) => Total(all, t) == target
      case ExceedsVram(t, missing) => Total(all, t) + missing == target && missing > 0
      case BelowFloor(needed) => target < needed == floor * |tps|
  {
    var all := tps + Ordinals(hosts);
    var remaining := target - floor * |tps|;
    if remaining >= 0 {
      SplitBox(tps, hosts);
      assert forall i :: 0 <= i < |tps| ==> all[i] == tps[i];
      assert forall h <- hosts :: h.ordinal in all;
      FloorsTotal(tps, Ordinals(hosts), floor);
      RoundsConserve(all, hosts, Floors(tps, floor), remaining, 2);
      AfterHosts(tps, hosts, target, floor);
      var (t, left) := HostRounds(hosts, Floors(tps, floor), remaining, 2);
      if left > 0 {
        OverflowConserves(all, tps, left / |tps|, capEach, floor, t);
        OverflowResult(tps, left / |tps|, capEach, floor, t);
        MissingExactly(left, |tps|, capEach);
      }
    }
  }

  // ---- room that is not used ------------------------------------------------

  lemma {:induction false} AllLive(hosts: seq<Host>, t: Targets)
    requires forall h <- hosts :: Given(t, h.ordinal) < h.cap
    ensures Live(hosts, t) == hosts
  {
    if hosts != [] {
      AllLive(hosts[1..], t);
    }
  }

  /** A round that has less than one slot per host to give gives nothing. */
  lemma ShareOfNothing(hosts: seq<Host>, t: Targets, remaining: int)
    requires Distinct(Ordinals(hosts)) && 0 <= remaining < |hosts|
    requires forall h <- hosts :: Given(t, h.ordinal) < h.cap
    ensures HostRounds(hosts, t, remaining, 1).1 == remaining
  {
    AllLive(hosts, t);
    DivModUnique(remaining, 0, |hosts|, remaining);
    FillLeftExactly(hosts, 0, t, remaining);
  }

  lemma EvenRounds(hosts: seq<Host>, t: Targets, remaining: int)
    requires Distinct(Ordinals(hosts)) && hosts != [] && remaining > 0
    requires forall h <- hosts :: Given(t, h.ordinal) == 0 && h.cap > remaining / |hosts|
    ensures HostRounds(hosts, t, remaining, 2).1 == remaining % |hosts|
  {
    var share := remaining / |hosts|;
    ShareFits(remaining, |hosts|);
    AllLive(hosts, t);
    var (t1, left) := Fill(hosts, share, t, remaining);
    assert left == remaining % |hosts| by {
      FillLeftExactly(hosts, share, t, remaining);
    }
    forall h <- hosts ensures Given(t1, h.ordinal) < h.cap {
      FillEach(hosts, share, t, remaining, h);
    }
    ShareOfNothing(hosts, t1, left);
  }

  /**
   * The hosts are not filled up to capacity: if each has room for more than an
   * even share, the indivisible rest is left over, however much room there is.
   */
  lemma RoomyHostsLeaveRest(tps: seq<int>, hosts: seq<Host>, target: int, floor: nat)
    requires Box(tps, hosts) && target >= floor * |tps| && hosts != []
    requires forall h <- hosts :: h.cap > (target - floor * |tps|) / |hosts|
    ensures LeftOver(hosts, target - floor * |tps|) == (target - floor * |tps|) % |hosts|
  {
    SplitBox(tps, hosts);
    if target - floor * |tps| > 0 {
      assert forall h <- hosts :: Given(Floors(tps, floor), h.ordinal) == 0;
      EvenRounds(hosts, Floors(tps, floor), target - floor * |tps|);
    }
    TwoRounds(tps, hosts, target, floor);
  }

  /**
   * For instance: eight experts a token, two TP GPUs and two hosts of a
   * thousand free slots each refuse a target of 117.
   */
  lemma RefusesWithRoom()
    ensures Grant([0, 1], [Host(2, 1000), Host(3, 1000)], 117, 8, 1000).ExceedsVram?
  {
    var tps, hosts := [0, 1], [Host(2, 1000), Host(3, 1000)];
    assert tps + Ordinals(hosts) == [0, 1, 2, 3];
    RoomyHostsLeaveRest(tps, hosts, 117, 8);
    RefusedExactly(tps, hosts, 117, 8, 1000);
  }
}
