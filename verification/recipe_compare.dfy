// The diff as the program runs it (python/autoconfig/compare.py): the walk that
// appends to a shared list, and the pass that gives every row its class.
module RecipeCompare {
  import opened Options
  import opened RecipeTree
  import opened RecipeDiff

  class Diff {
    var out: seq<Row>

    constructor ()
      ensures out == []
    {
      out := [];
    }

    /** _walk: append the divergences of r and d, which stand at path. */
    method Visit(path: Path, r: Json, d: Json)
      modifies this
      ensures out == old(out) + Under(path, Walk(r, d))
      decreases r, 1
    {
      if r.Obj? && d.Obj? {
        VisitKeys(path, r, d);
      } else if ByElement(r, d) {
        VisitLists(path, r, d);
      } else if r != d {
        out := out + [Row(path, Some(r), Some(d))];
        UnderRoot(path, Some(r), Some(d));
      }
    }

    method VisitKeys(path: Path, r: Json, d: Json)
      requires r.Obj? && d.Obj?
      modifies this
      ensures out == old(out) + Under(path, WalkKeys(r, d, SortedKeys(r.fields, d.fields)))
      decreases r, 0, 1
    {
      var keys := SortedKeys(r.fields, d.fields);
      for i := 0 to |keys|
        invariant out + Under(path, WalkKeys(r, d, keys[i..])) == old(out) + Under(path, WalkKeys(r, d, keys))
      {
        var k := keys[i];
        ghost var before := out;
        VisitKey(path + [Key(k)], r, d, k);
        KeysAdvance(path, r, d, keys, i, before);
      }
      assert keys[|keys|..] == [];
    }

    /** The walk of one key's two values, either of which may be missing. */
    method VisitKey(path: Path, r: Json, d: Json, k: string)
      requires r.Obj? && d.Obj?
      modifies this
      ensures out == old(out) + Under(path, Between(Get(r.fields, k), Get(d.fields, k)))
      decreases r, 0, 0
    {
      var a, b := Get(r.fields, k), Get(d.fields, k);
      if a.Some? && b.Some? {
        Visit(path, a.value, b.value);
      } else if a != b {
        out := out + [Row(path, a, b)];
        UnderRoot(path, a, b);
      }
    }

    /** Lists of objects: their lengths first, if they differ. */
    method VisitLists(path: Path, r: Json, d: Json)
      requires r.Arr? && d.Arr?
      modifies this
      ensures out == old(out) + Under(path, LengthRows(r.items, d.items) + WalkItems(r, d, 0))
      decreases r, 0, 1
    {
      if |r.items| != |d.items| {
        out := out + [Row(path + [Length], Some(Number(|r.items|)), Some(Number(|d.items|)))];
      }
      assert out == old(out) + Under(path, LengthRows(r.items, d.items));
      VisitItems(path, r, d);
      UnderConcat(path, LengthRows(r.items, d.items), WalkItems(r, d, 0));
    }

    method VisitItems(path: Path, r: Json, d: Json)
      requires r.Arr? && d.Arr?
      modifies this
      ensures out == old(out) + Under(path, WalkItems(r, d, 0))
      decreases r, 0, 0
    {
      var n := if |r.items| >= |d.items| then |r.items| else |d.items|;
      for i := 0 to n
        invariant out + Under(path, WalkItems(r, d, i)) == old(out) + Under(path, WalkItems(r, d, 0))
      {
        ghost var before := out;
        var a, b := At(r.items, i), At(d.items, i);
        if a.Some? && b.Some? {
          Visit(path + [Index(i)], a.value, b.value);
        } else if a != b {
          out := out + [Row(path + [Index(i)], a, b)];
          UnderRoot(path + [Index(i)], a, b);
        }
        assert out == before + Under(path + [Index(i)], Between(a, b));
        ItemsAdvance(path, r, d, i, before);
      }
    }
  }

  lemma UnderRoot(path: Path, a: Option<Json>, b: Option<Json>)
    ensures Under(path, [Row([], a, b)]) == [Row(path, a, b)]
  {
    assert path + [] == path;
  }

  /** One key or element has been walked. */
  lemma Advance(path: Path, step: Step, here: seq<Row>, rest: seq<Row>, before: seq<Row>)
    ensures before + Under(path + [step], here) + Under(path, rest) == before + Under(path, Under([step], here) + rest)
  {
    UnderConcat(path, Under([step], here), rest);
    UnderUnder(path, [step], here);
  }

  lemma KeysAdvance(path: Path, r: Json, d: Json, keys: seq<string>, i: nat, before: seq<Row>)
    requires r.Obj? && d.Obj? && i < |keys|
    ensures before + Under(path + [Key(keys[i])], Between(Get(r.fields, keys[i]), Get(d.fields, keys[i])))
      + Under(path, WalkKeys(r, d, keys[i + 1..])) == before + Under(path, WalkKeys(r, d, keys[i..]))
  {
    assert keys[i..][1..] == keys[i + 1..];
    Advance(path, Key(keys[i]), Between(Get(r.fields, keys[i]), Get(d.fields, keys[i])),
            WalkKeys(r, d, keys[i + 1..]), before);
  }

  lemma ItemsAdvance(path: Path, r: Json, d: Json, i: nat, before: seq<Row>)
    requires r.Arr? && d.Arr? && (i < |r.items| || i < |d.items|)
    ensures before + Under(path + [Index(i)], Between(At(r.items, i), At(d.items, i)))
      + Under(path, WalkItems(r, d, i + 1)) == before + Under(path, WalkItems(r, d, i))
  {
    Advance(path, Index(i), Between(At(r.items, i), At(d.items, i)), WalkItems(r, d, i + 1), before);
  }

  // ---- paths name their rows --------------------------------------------------

  ghost predicate Distinct(rows: seq<Row>) {
    forall i, j :: 0 <= i < j < |rows| ==> rows[i].path != rows[j].path
  }

  lemma DistinctConcat(a: seq<Row>, b: seq<Row>)
    requires Distinct(a) && Distinct(b) && forall x, y :: x in a && y in b ==> x.path != y.path
    ensures Distinct(a + b)
  {
    var ab := a + b;
    forall i, j | 0 <= i < j < |ab| ensures ab[i].path != ab[j].path {
      if i < |a| <= j {
        assert ab[i] in a && ab[j] in b;
      }
    }
  }

  lemma DistinctUnder(step: Step, rows: seq<Row>)
    requires Distinct(rows)
    ensures Distinct(Under([step], rows))
  {
    var under := Under([step], rows);
    forall i, j | 0 <= i < j < |rows| ensures under[i].path != under[j].path {
      assert under[i].path[1..] == rows[i].path && under[j].path[1..] == rows[j].path;
    }
  }

  /** No two rows have the same path. */
  lemma {:induction false} PathsDistinct(r: Json, d: Json)
    requires WellFormed(r) && WellFormed(d)
    ensures Distinct(Walk(r, d))
    decreases r, 1, 0
  {
    if r.Obj? && d.Obj? {
      SortedKeysExact(r.fields, d.fields);
      KeysDistinct(r, d, SortedKeys(r.fields, d.fields));
    } else if ByElement(r, d) {
      ItemsDistinct(r, d, 0);
      var rows := WalkItems(r, d, 0);
      forall y | y in rows ensures y.path != [Length] {
        ItemPaths(r, d, 0, y);
      }
      DistinctConcat(LengthRows(r.items, d.items), rows);
    }
  }

  lemma {:induction false} KeysDistinct(r: Json, d: Json, ks: seq<string>)
    requires r.Obj? && d.Obj? && WellFormed(r) && WellFormed(d) && Ascending(ks)
    ensures Distinct(WalkKeys(r, d, ks))
    decreases r, 0, |ks|
  {
    if ks != [] {
      var k := ks[0];
      var a, b := Get(r.fields, k), Get(d.fields, k);
      if a.Some? && b.Some? {
        GetWellFormed(r, k);
        GetWellFormed(d, k);
        PathsDistinct(a.value, b.value);
      }
      DistinctUnder(Key(k), Between(a, b));
      KeysDistinct(r, d, ks[1..]);
      KeysApart(r, d, ks, Between(a, b));
      DistinctConcat(Under([Key(k)], Between(a, b)), WalkKeys(r, d, ks[1..]));
    }
  }

  lemma KeysApart(r: Json, d: Json, ks: seq<string>, here: seq<Row>)
    requires r.Obj? && d.Obj? && ks != [] && Ascending(ks)
    ensures forall x, y :: x in Under([Key(ks[0])], here) && y in WalkKeys(r, d, ks[1..]) ==> x.path != y.path
  {
    forall x, y | x in Under([Key(ks[0])], here) && y in WalkKeys(r, d, ks[1..]) ensures x.path != y.path {
      var inner := UnderInner(Key(ks[0]), here, x);
      KeyPaths(r, d, ks[1..], y);
      LessIrreflexive(ks[0]);
    }
  }

  lemma {:induction false} ItemsDistinct(r: Json, d: Json, i: nat)
    requires r.Arr? && d.Arr? && WellFormed(r) && WellFormed(d)
    ensures Distinct(WalkItems(r, d, i))
    decreases r, 0, |r.items| + |d.items| - i
  {
    var a, b := At(r.items, i), At(d.items, i);
    if a != None || b != None {
      if a.Some? && b.Some? {
        PathsDistinct(a.value, b.value);
      }
      DistinctUnder(Index(i), Between(a, b));
      ItemsDistinct(r, d, i + 1);
      ItemsApart(r, d, i, Between(a, b));
      DistinctConcat(Under([Index(i)], Between(a, b)), WalkItems(r, d, i + 1));
    }
  }

  lemma ItemsApart(r: Json, d: Json, i: nat, here: seq<Row>)
    requires r.Arr? && d.Arr?
    ensures forall x, y :: x in Under([Index(i)], here) && y in WalkItems(r, d, i + 1) ==> x.path != y.path
  {
    forall x, y | x in Under([Index(i)], here) && y in WalkItems(r, d, i + 1) ensures x.path != y.path {
      var inner := UnderInner(Index(i), here, x);
      ItemPaths(r, d, i + 1, y);
    }
  }

  // ---- one-sided elements and their length row ----------------------------------

  /** An element that only one of the two lists has. */
  predicate IsElement(row: Row) {
    row.path != [] && row.path[|row.path| - 1].Index? && (row.ref == None || row.der == None)
  }

  function LengthPath(path: Path): Path
    requires path != []
  {
    path[..|path| - 1] + [Length]
  }

  predicate HasLengthRow(rows: seq<Row>, j: int)
    requires 0 <= j < |rows| && rows[j].path != []
  {
    exists i :: 0 <= i < j && rows[i].path == LengthPath(rows[j].path)
  }

  /** Every one-sided element comes after its list's length row; with top, those of the list itself are excused. */
  predicate Announced(rows: seq<Row>, top: bool) {
    forall j :: 0 <= j < |rows| && IsElement(rows[j]) ==> (top && |rows[j].path| == 1) || HasLengthRow(rows, j)
  }

  lemma AnnouncedConcat(a: seq<Row>, b: seq<Row>, top: bool)
    requires Announced(a, top) && Announced(b, top)
    ensures Announced(a + b, top)
  {
    var ab := a + b;
    forall j | 0 <= j < |ab| && IsElement(ab[j]) && !(top && |ab[j].path| == 1) ensures HasLengthRow(ab, j) {
      if j < |a| {
        assert HasLengthRow(a, j);
        var i :| 0 <= i < j && a[i].path == LengthPath(a[j].path);
        assert ab[i].path == LengthPath(ab[j].path);
      } else {
        assert HasLengthRow(b, j - |a|);
        var i :| 0 <= i < j - |a| && b[i].path == LengthPath(b[j - |a|].path);
        assert ab[|a| + i].path == LengthPath(ab[j].path);
      }
    }
  }

  /** Length rows announced below a step are announced above it too. */
  lemma AnnouncedUnder(step: Step, rows: seq<Row>, top: bool)
    requires Announced(rows, false)
    requires forall row <- rows :: row.path == [] && (row.ref == None || row.der == None) ==> step.Key? || top
    ensures Announced(Under([step], rows), top)
  {
    var under := Under([step], rows);
    forall j | 0 <= j < |under| && IsElement(under[j]) && !(top && |under[j].path| == 1)
      ensures HasLengthRow(under, j)
    {
      assert under[j].path == [step] + rows[j].path && rows[j] in rows;
      if rows[j].path != [] {
        assert HasLengthRow(rows, j);
        var i :| 0 <= i < j && rows[i].path == LengthPath(rows[j].path);
        assert under[i].path == LengthPath(under[j].path);
      }
    }
  }

  lemma TwoSidedRoot(r: Json, d: Json, row: Row)
    requires row in Walk(r, d) && row.path == []
    ensures row.ref.Some? && row.der.Some?
  {
    RowsAreTruthful(r, d, row);
  }

  lemma {:induction false} WalkAnnounced(r: Json, d: Json)
    ensures Announced(Walk(r, d), false)
    decreases r, 1, 0
  {
    if r.Obj? && d.Obj? {
      KeysAnnounced(r, d, SortedKeys(r.fields, d.fields));
    } else if ByElement(r, d) {
      ItemsAnnounced(r, d, 0);
      var head, tail := LengthRows(r.items, d.items), WalkItems(r, d, 0);
      if head == [] {
        assert head + tail == tail;
      } else {
        AnnouncedConcat(head, tail, true);
        TopAnnounced(head + tail);
      }
    }
  }

  lemma TopAnnounced(rows: seq<Row>)
    requires Announced(rows, true) && rows != [] && rows[0].path == [Length]
    ensures Announced(rows, false)
  {
    forall j | 0 <= j < |rows| && IsElement(rows[j]) ensures HasLengthRow(rows, j) {
      if |rows[j].path| == 1 {
        assert rows[0].path == LengthPath(rows[j].path);
      }
    }
  }

  lemma {:induction false} KeysAnnounced(r: Json, d: Json, ks: seq<string>)
    requires r.Obj? && d.Obj?
    ensures Announced(WalkKeys(r, d, ks), false)
    decreases r, 0, |ks|
  {
    if ks != [] {
      var a, b := Get(r.fields, ks[0]), Get(d.fields, ks[0]);
      if a.Some? && b.Some? {
        WalkAnnounced(a.value, b.value);
      }
      AnnouncedUnder(Key(ks[0]), Between(a, b), false);
      KeysAnnounced(r, d, ks[1..]);
      AnnouncedConcat(Under([Key(ks[0])], Between(a, b)), WalkKeys(r, d, ks[1..]), false);
    }
  }

  lemma {:induction false} ItemsAnnounced(r: Json, d: Json, i: nat)
    requires r.Arr? && d.Arr?
    ensures Announced(WalkItems(r, d, i), |r.items| != |d.items|)
    decreases r, 0, |r.items| + |d.items| - i
  {
    var a, b := At(r.items, i), At(d.items, i);
    var top := |r.items| != |d.items|;
    if a != None || b != None {
      if a.Some? && b.Some? {
        WalkAnnounced(a.value, b.value);
        forall row | row in Between(a, b) && row.path == [] ensures row.ref.Some? && row.der.Some? {
          TwoSidedRoot(a.value, b.value, row);
        }
      }
      AnnouncedUnder(Index(i), Between(a, b), top);
      ItemsAnnounced(r, d, i + 1);
      AnnouncedConcat(Under([Index(i)], Between(a, b)), WalkItems(r, d, i + 1), top);
    }
  }

  // ---- classification -------------------------------------------------------------

  datatype Class = DerivedEqual | SolverChoice | TemplateCopy | ReferenceOmits | Unexplained

  /** A classified row; `because` is the length row an element points to. */
  datatype Divergence = Divergence(row: Row, class_: Class, because: Option<Path>)

  /** Row j's divergence: an element takes the class its list's length row was given. */
  ghost predicate Classified(rows: seq<Row>, classify: Row -> Class, d: Divergence, j: int)
    requires 0 <= j < |rows|
  {
    if IsElement(rows[j]) then Inherits(rows, classify, d, j) else d == Divergence(rows[j], classify(rows[j]), None)
  }

  ghost predicate Inherits(rows: seq<Row>, classify: Row -> Class, d: Divergence, j: int)
    requires 0 <= j < |rows| && rows[j].path != []
  {
    exists i :: 0 <= i < j && rows[i].path == LengthPath(rows[j].path)
      && d == Divergence(rows[j], classify(rows[i]), Some(rows[i].path))
  }

  ghost predicate AllClassified(rows: seq<Row>, classify: Row -> Class, result: seq<Divergence>) {
    |result| == |rows| && forall j :: 0 <= j < |rows| ==> Classified(rows, classify, result[j], j)
  }

  /** by_path holds, for each path met so far, the divergence at that path. */
  ghost predicate Indexed(byPath: map<Path, Divergence>, result: seq<Divergence>) {
    && (forall i :: 0 <= i < |result| ==> result[i].row.path in byPath)
    && (forall p :: p in byPath ==> byPath[p] in result && byPath[p].row.path == p)
  }

  lemma IndexedStep(byPath: map<Path, Divergence>, result: seq<Divergence>, d: Divergence)
    requires Indexed(byPath, result)
    ensures Indexed(byPath[d.row.path := d], result + [d])
  {
    var more := result + [d];
    assert more[|result|] == d;
    assert forall x :: x in result ==> x in more;
  }

  /** The divergence appended for a row, given what is indexed so far. */
  function Judge(byPath: map<Path, Divergence>, row: Row, classify: Row -> Class): Divergence {
    if IsElement(row) && LengthPath(row.path) in byPath
    then
      var parent := byPath[LengthPath(row.path)];
      Divergence(row, parent.class_, Some(parent.row.path))
    else Divergence(row, classify(row), None)
  }

  method Divergences(reference: Json, derived: Json) returns (rows: seq<Row>)
    ensures rows == Walk(reference, derived)
  {
    var diff := new Diff();
    diff.Visit([], reference, derived);
    rows := diff.out;
    UnderEmpty(Walk(reference, derived));
  }

  /** compare, for any way of classifying one row on its own. */
  method Compare(reference: Json, derived: Json, classify: Row -> Class) returns (result: seq<Divergence>)
    ensures AllClassified(Walk(reference, derived), classify, result)
  {
    WalkAnnounced(reference, derived);
    var rows := Divergences(reference, derived);
    result := ClassifyAll(rows, classify);
  }

  method ClassifyAll(rows: seq<Row>, classify: Row -> Class) returns (result: seq<Divergence>)
    requires Announced(rows, false)
    ensures AllClassified(rows, classify, result)
  {
    result := [];
    var byPath: map<Path, Divergence> := map[];
    for j := 0 to |rows|
      invariant |result| == j && Indexed(byPath, result)
      invariant forall i :: 0 <= i < j ==> Classified(rows, classify, result[i], i)
    {
      var d := Judge(byPath, rows[j], classify);
      JudgedRight(rows, classify, result, byPath, j);
      IndexedStep(byPath, result, d);
      result := result + [d];
      byPath := byPath[rows[j].path := d];
    }
  }

  lemma JudgedRight(rows: seq<Row>, classify: Row -> Class, result: seq<Divergence>,
                    byPath: map<Path, Divergence>, j: int)
    requires Announced(rows, false) && 0 <= j == |result| < |rows| && Indexed(byPath, result)
    requires forall i :: 0 <= i < j ==> Classified(rows, classify, result[i], i)
    ensures Classified(rows, classify, Judge(byPath, rows[j], classify), j)
  {
    if IsElement(rows[j]) {
      var p := LengthPath(rows[j].path);
      assert HasLengthRow(rows, j);
      var i :| 0 <= i < j && rows[i].path == p;
      assert Classified(rows, classify, result[i], i) && result[i].row.path == p;
      var n :| 0 <= n < |result| && result[n] == byPath[p];
      LengthRowOwnClass(rows, classify, result[n], n, rows[j].path);
    }
  }

  /** A length row is not an element: its class is its own. */
  lemma LengthRowOwnClass(rows: seq<Row>, classify: Row -> Class, d: Divergence, n: int, path: Path)
    requires 0 <= n < |rows| && Classified(rows, classify, d, n) && path != [] && d.row.path == LengthPath(path)
    ensures d == Divergence(rows[n], classify(rows[n]), None)
  {
    assert rows[n].path[|rows[n].path| - 1] == Length;
  }

  // ---- what the classes decide ------------------------------------------------------

  /** The acceptance gate: some row is unexplained. */
  predicate Gates(result: seq<Divergence>) {
    exists j :: 0 <= j < |result| && result[j].class_ == Unexplained
  }

  ghost predicate OwnUnexplained(rows: seq<Row>, classify: Row -> Class, j: int) {
    0 <= j < |rows| && !IsElement(rows[j]) && classify(rows[j]) == Unexplained
  }

  /**
   * One-sided elements never decide acceptance: the gate closes exactly when
   * some other row is unexplained on its own.
   */
  lemma ElementsNeverDecide(rows: seq<Row>, classify: Row -> Class, result: seq<Divergence>)
    requires AllClassified(rows, classify, result)
    ensures Gates(result) <==> exists j :: OwnUnexplained(rows, classify, j)
  {
    if Gates(result) {
      var j :| 0 <= j < |result| && result[j].class_ == Unexplained;
      assert Classified(rows, classify, result[j], j);
      if IsElement(rows[j]) {
        var i :| 0 <= i < j && rows[i].path == LengthPath(rows[j].path)
          && result[j] == Divergence(rows[j], classify(rows[i]), Some(rows[i].path));
        assert rows[i].path[|rows[i].path| - 1] == Length;
        assert OwnUnexplained(rows, classify, i);
      } else {
        assert OwnUnexplained(rows, classify, j);
      }
    }
    if exists j :: OwnUnexplained(rows, classify, j) {
      var j :| OwnUnexplained(rows, classify, j);
      assert Classified(rows, classify, result[j], j);
    }
  }

  /** All one-sided elements of one list are in the class its length row was given on its own. */
  lemma ElementsShareAClass(rows: seq<Row>, classify: Row -> Class, result: seq<Divergence>, n: int, j: int)
    requires Distinct(rows) && AllClassified(rows, classify, result) && 0 <= n < |rows| && 0 <= j < |rows|
    requires IsElement(rows[j]) && rows[n].path == LengthPath(rows[j].path)
    ensures result[j].class_ == result[n].class_ == classify(rows[n])
  {
    assert Classified(rows, classify, result[j], j) && Classified(rows, classify, result[n], n);
    LengthRowOwnClass(rows, classify, result[n], n, rows[j].path);
  }
}
