// The tensor-parallel degree (python/autoconfig/solver.py, tp_degree): a power
// of two within the run of top-class GPUs, halved until the heads divide.
module TpDegree {
  import opened Options
  import opened IntMath

  datatype Gpu = Gpu(vram: nat, kind: string)

  datatype Shape = Shape(heads: nat, linearHeads: Option<nat>, oGroups: nat)

  const HEADS_PER_RANK := 128

  function Pow2(k: nat): (r: nat)
    ensures r >= 1
  {
    if k == 0 then 1 else 2 * Pow2(k - 1)
  }

  lemma {:induction false} Pow2Grows(j: nat, k: nat)
    requires j <= k
    ensures Pow2(j) <= Pow2(k)
    decreases k
  {
    if j < k {
      Pow2Grows(j, k - 1);
    } else if k > 0 {
      Pow2Grows(k - 1, k - 1);
    }
  }

  /** Do all head counts divide by tp? One group is no constraint. */
  predicate Divides(s: Shape, tp: nat)
    requires tp > 0
  {
    && s.heads % tp == 0
    && (s.linearHeads.Some? ==> s.linearHeads.value % tp == 0)
    && (s.oGroups > 1 ==> s.oGroups % tp == 0)
  }

  /** How many GPUs are of the first one's class. */
  function TopRun(gpus: seq<Gpu>, top: Gpu): nat {
    if gpus == [] then 0 else TopRun(gpus[..|gpus| - 1], top) + if gpus[|gpus| - 1] == top then 1 else 0
  }

  lemma {:induction false} TopRunHasTop(gpus: seq<Gpu>)
    requires gpus != []
    ensures TopRun(gpus, gpus[0]) >= 1
    decreases |gpus|
  {
    if |gpus| > 1 {
      TopRunHasTop(gpus[..|gpus| - 1]);
    } else {
      assert TopRun(gpus[..0], gpus[0]) == 0;
    }
  }

  /** A degree the run of GPUs and the model's heads allow. */
  ghost predicate Allowed(s: Shape, run: nat, tp: nat) {
    (exists k: nat :: tp == Pow2(k)) && 0 < tp <= run && Divides(s, tp)
  }

  /** tp is allowed, and no allowed degree is larger. */
  ghost predicate IsLargest(s: Shape, run: nat, tp: nat) {
    Allowed(s, run, tp) && forall p: nat :: Allowed(s, run, p) ==> p <= tp
  }

  /** tp_degree: the largest allowed degree, refused when a rank would still hold too many heads. */
  method Degree(gpus: seq<Gpu>, s: Shape) returns (tp: nat, refused: bool)
    requires gpus != []
    ensures IsLargest(s, TopRun(gpus, gpus[0]), tp)
    ensures refused <==> s.heads / tp > 128
  {
    var run := 0;
    for i := 0 to |gpus|
      invariant run == TopRun(gpus[..i], gpus[0])
    {
      assert gpus[..i + 1][..i] == gpus[..i];
      if gpus[i].vram == gpus[0].vram && gpus[i].kind == gpus[0].kind {
        run := run + 1;
      }
    }
    assert gpus[..|gpus|] == gpus;
    TopRunHasTop(gpus);
    tp := Halve(s, run);
    refused := s.heads / tp > HEADS_PER_RANK;
  }

  /** Double while the run has room. */
  method Double(run: nat) returns (tp: nat, ghost top: nat)
    requires run >= 1
    ensures tp == Pow2(top) <= run < Pow2(top + 1)
  {
    tp, top := 1, 0;
    while tp * 2 <= run
      invariant tp == Pow2(top) <= run
      decreases run - tp
    {
      tp, top := tp * 2, top + 1;
    }
  }

  /** Halve while the heads do not divide. */
  method Halve(s: Shape, run: nat) returns (tp: nat)
    requires run >= 1
    ensures IsLargest(s, run, tp)
  {
    ghost var top;
    tp, top := Double(run);
    ghost var k: nat := top;
    while tp > 1 && (s.heads % tp != 0
                     || (s.linearHeads.Some? && s.linearHeads.value % tp != 0)
                     || (s.oGroups > 1 && s.oGroups % tp != 0))
      invariant tp == Pow2(k) <= run && k <= top
      invariant forall j: nat :: k < j <= top ==> !Divides(s, Pow2(j))
      decreases tp
    {
      tp, k := tp / 2, k - 1;
    }
    NothingLarger(s, run, k, top);
  }

  lemma NothingLarger(s: Shape, run: nat, k: nat, top: nat)
    requires k <= top && run < Pow2(top + 1)
    requires forall j: nat :: k < j <= top ==> !Divides(s, Pow2(j))
    ensures forall p: nat :: Allowed(s, run, p) ==> p <= Pow2(k)
  {
    forall p: nat | Allowed(s, run, p) ensures p <= Pow2(k) {
      var j: nat :| p == Pow2(j);
      if j <= k {
        Pow2Grows(j, k);
      } else if j > top {
        Pow2Grows(top + 1, j);
      }
    }
  }

  /** When the degree is refused no allowed degree would have met the cap. */
  lemma RefusedForAll(s: Shape, run: nat, tp: nat, p: nat)
    requires IsLargest(s, run, tp) && Allowed(s, run, p) && s.heads / tp > 128
    ensures s.heads / p > 128
  {
    var q := s.heads / tp;
    DivReaches(s.heads, tp, q);
    MulLe(p, tp, q);
    DivReaches(s.heads, p, q);
  }
}
