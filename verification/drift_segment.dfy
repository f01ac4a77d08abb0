// Cutting a gating dump into requests (tools/drift_dump_diff.py): a request
// starts where a long run of prefill-shaped records starts and lasts until the
// next one starts. A record is represented by its num_tokens.
module DriftSegment {

  const PREFILL := 32

  predicate IsPrefill(tokens: seq<int>, i: int) {
    0 <= i < |tokens| && tokens[i] >= 32
  }

  /** A maximal run of prefill-shaped records. */
  ghost predicate IsRun(tokens: seq<int>, s: int, e: int) {
    && 0 <= s < e <= |tokens|
    && (forall i :: s <= i < e ==> IsPrefill(tokens, i))
    && !IsPrefill(tokens, s - 1) && !IsPrefill(tokens, e)
  }

  /** A request starts at s. */
  ghost predicate Starts(tokens: seq<int>, minRun: int, s: int) {
    exists e :: IsRun(tokens, s, e) && e - s >= minRun
  }

  datatype Block = Block(start: int, end: int)

  predicate Ascending(runs: seq<Block>) {
    forall i, j :: 0 <= i < j < |runs| ==> runs[i].end <= runs[j].start
  }

  /** runs holds the long runs among the records below n, in order, and nothing else. */
  ghost predicate LongRuns(tokens: seq<int>, minRun: int, runs: seq<Block>, n: int) {
    && (forall r <- runs :: IsRun(tokens, r.start, r.end) && r.end - r.start >= minRun && r.end <= n)
    && (forall s, e :: IsRun(tokens, s, e) && e - s >= minRun && s < n ==> Block(s, e) in runs)
    && Ascending(runs)
  }

  /** A run determines both its ends. */
  lemma RunUnique(tokens: seq<int>, s: int, e: int, s': int, e': int)
    requires IsRun(tokens, s, e) && IsRun(tokens, s', e') && s <= s' < e
    ensures s == s' && e == e'
  {
    assert s < s' ==> IsPrefill(tokens, s' - 1);
    assert e < e' ==> IsPrefill(tokens, e);
    assert e' < e ==> IsPrefill(tokens, e');
  }

  /** Past a non-prefill record no run begins there. */
  lemma SkipRecord(tokens: seq<int>, minRun: int, runs: seq<Block>, i: int)
    requires LongRuns(tokens, minRun, runs, i) && 0 <= i < |tokens| && !IsPrefill(tokens, i)
    ensures LongRuns(tokens, minRun, runs, i + 1)
  {
  }

  /** One run, long or not, has been walked over. */
  lemma TakeRun(tokens: seq<int>, minRun: int, runs: seq<Block>, i: int, j: int)
    requires LongRuns(tokens, minRun, runs, i) && IsRun(tokens, i, j)
    ensures LongRuns(tokens, minRun, if j - i >= minRun then runs + [Block(i, j)] else runs, j)
  {
    var longer := if j - i >= minRun then runs + [Block(i, j)] else runs;
    forall s, e | IsRun(tokens, s, e) && e - s >= minRun && s < j ensures Block(s, e) in longer {
      if s >= i {
        RunUnique(tokens, i, j, s, e);
        assert longer[|runs|] == Block(i, j);
      } else {
        assert Block(s, e) in runs;
      }
    }
  }

  ghost predicate SomeStart(blocks: seq<Block>, s: int) {
    exists k :: 0 <= k < |blocks| && blocks[k].start == s
  }

  /** Each block ends where the next begins, the last one with the dump. */
  predicate Tiles(tokens: seq<int>, blocks: seq<Block>) {
    forall k :: 0 <= k < |blocks| ==> blocks[k].start < blocks[k].end == EndOf(tokens, blocks, k)
  }

  function EndOf(tokens: seq<int>, runs: seq<Block>, k: int): int
    requires 0 <= k < |runs|
  {
    if k + 1 < |runs| then runs[k + 1].start else |tokens|
  }

  /** The blocks start exactly at the requests' starts, and tile the dump from the first one on. */
  ghost predicate IsSegmentation(tokens: seq<int>, minRun: int, blocks: seq<Block>) {
    && (forall s :: Starts(tokens, minRun, s) <==> SomeStart(blocks, s))
    && Tiles(tokens, blocks)
  }

  method FindRuns(tokens: seq<int>, minRun: int) returns (runs: seq<Block>)
    ensures LongRuns(tokens, minRun, runs, |tokens|)
  {
    runs := [];
    var i := 0;
    while i < |tokens|
      invariant 0 <= i <= |tokens| && LongRuns(tokens, minRun, runs, i)
      invariant !IsPrefill(tokens, i - 1) || !IsPrefill(tokens, i)
    {
      if tokens[i] >= PREFILL {
        var j := i;
        while j < |tokens| && tokens[j] >= PREFILL
          invariant i <= j <= |tokens| && forall k :: i <= k < j ==> IsPrefill(tokens, k)
        {
          j := j + 1;
        }
        TakeRun(tokens, minRun, runs, i, j);
        if j - i >= minRun {
          runs := runs + [Block(i, j)];
        }
        i := j;
      } else {
        SkipRecord(tokens, minRun, runs, i);
        i := i + 1;
      }
    }
  }

  /** segment: the request blocks of a dump. */
  method Segment(tokens: seq<int>, minRun: int) returns (blocks: seq<Block>)
    ensures IsSegmentation(tokens, minRun, blocks)
  {
    var runs := FindRuns(tokens, minRun);
    blocks := [];
    for k := 0 to |runs|
      invariant |blocks| == k
      invariant forall i :: 0 <= i < k ==> blocks[i] == Block(runs[i].start, EndOf(tokens, runs, i))
    {
      var e := if k + 1 < |runs| then runs[k + 1].start else |tokens|;
      blocks := blocks + [Block(runs[k].start, e)];
    }
    BlocksTile(tokens, minRun, runs, blocks);
    forall s ensures Starts(tokens, minRun, s) <==> SomeStart(blocks, s) {
      StartsOfRuns(tokens, minRun, runs, blocks, s);
    }
  }

  lemma StartsOfRuns(tokens: seq<int>, minRun: int, runs: seq<Block>, blocks: seq<Block>, s: int)
    requires LongRuns(tokens, minRun, runs, |tokens|) && |blocks| == |runs|
    requires forall i :: 0 <= i < |runs| ==> blocks[i].start == runs[i].start
    ensures Starts(tokens, minRun, s) <==> SomeStart(blocks, s)
  {
    if Starts(tokens, minRun, s) {
      var e :| IsRun(tokens, s, e) && e - s >= minRun;
      var i :| 0 <= i < |runs| && runs[i] == Block(s, e);
      assert blocks[i].start == s;
    }
    if SomeStart(blocks, s) {
      var k :| 0 <= k < |blocks| && blocks[k].start == s;
      assert runs[k] in runs;
    }
  }

  lemma BlocksTile(tokens: seq<int>, minRun: int, runs: seq<Block>, blocks: seq<Block>)
    requires LongRuns(tokens, minRun, runs, |tokens|) && |blocks| == |runs|
    requires forall i :: 0 <= i < |runs| ==> blocks[i] == Block(runs[i].start, EndOf(tokens, runs, i))
    ensures Tiles(tokens, blocks)
  {
    forall k | 0 <= k < |blocks| ensures blocks[k].start < blocks[k].end == EndOf(tokens, blocks, k) {
      assert runs[k] in runs;
      assert IsRun(tokens, runs[k].start, runs[k].end);
    }
  }

  predicate Holds(blocks: seq<Block>, k: int, i: int) {
    0 <= k < |blocks| && blocks[k].start <= i < blocks[k].end
  }

  /** Every record from the first request on lies in exactly one block; no block holds an earlier one. */
  lemma {:induction false} BlocksPartition(tokens: seq<int>, minRun: int, blocks: seq<Block>, i: int)
    requires IsSegmentation(tokens, minRun, blocks) && blocks != [] && i < |tokens|
    ensures blocks[0].start <= i <==> exists k :: Holds(blocks, k, i)
    ensures forall j, k :: Holds(blocks, j, i) && Holds(blocks, k, i) ==> j == k
  {
    forall j, k | 0 <= j < k < |blocks| ensures blocks[j].end <= blocks[k].start {
      StartsAscend(tokens, minRun, blocks, j, k);
    }
    if blocks[0].start <= i {
      var k := 0;
      while blocks[k].end <= i
        invariant 0 <= k < |blocks| && blocks[k].start <= i
        decreases |blocks| - k
      {
        k := k + 1;
      }
      assert Holds(blocks, k, i);
    }
  }

  lemma {:induction false} StartsAscend(tokens: seq<int>, minRun: int, blocks: seq<Block>, j: int, k: int)
    requires IsSegmentation(tokens, minRun, blocks) && 0 <= j < k < |blocks|
    ensures blocks[j].end <= blocks[k].start
    decreases k
  {
    if j + 1 < k {
      StartsAscend(tokens, minRun, blocks, j, k - 1);
    }
  }

  /** Starts and contiguity leave no choice: a dump has one segmentation. */
  lemma {:induction false} SegmentationUnique(tokens: seq<int>, minRun: int, a: seq<Block>, b: seq<Block>)
    requires IsSegmentation(tokens, minRun, a) && IsSegmentation(tokens, minRun, b)
    ensures a == b
  {
    SameFrom(tokens, minRun, a, b, 0);
  }

  lemma {:induction false} SameFrom(tokens: seq<int>, minRun: int, a: seq<Block>, b: seq<Block>, n: nat)
    requires IsSegmentation(tokens, minRun, a) && IsSegmentation(tokens, minRun, b)
    requires n <= |a| && n <= |b| && forall i :: 0 <= i < n ==> a[i].start == b[i].start
    ensures a == b
    decreases |a| - n
  {
    if n < |a| {
      NextStart(tokens, minRun, a, b, n);
    }
    if n < |b| {
      NextStart(tokens, minRun, b, a, n);
    }
    if n < |a| {
      SameFrom(tokens, minRun, a, b, n + 1);
    } else {
      forall i | 0 <= i < n ensures a[i] == b[i] {
        assert EndOf(tokens, a, i) == EndOf(tokens, b, i);
      }
    }
  }

  /** The next block of a is matched by one of b, which starts no later than it. */
  lemma NextStart(tokens: seq<int>, minRun: int, a: seq<Block>, b: seq<Block>, n: nat)
    requires IsSegmentation(tokens, minRun, a) && IsSegmentation(tokens, minRun, b)
    requires n < |a| && n <= |b| && forall i :: 0 <= i < n ==> a[i].start == b[i].start
    ensures n < |b| && b[n].start <= a[n].start
  {
    assert SomeStart(a, a[n].start);
    assert SomeStart(b, a[n].start);
    var j :| 0 <= j < |b| && b[j].start == a[n].start;
    if j < n {
      StartsAscend(tokens, minRun, a, j, n);
    } else if n < j {
      StartsAscend(tokens, minRun, b, n, j);
    }
  }
}
