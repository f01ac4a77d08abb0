// How a change of shape reads (python/autoconfig/compare.py): a length row
// never comes alone. It is followed by one row for every element that only one
// of the two lists has, and they all share its class.
module RecipeLengths {
  import opened IntMath
  import opened Options
  import opened RecipeTree
  import opened RecipeDiff
  import opened RecipeCompare

  predicate IsLength(path: Path) {
    path != [] && path[|path| - 1] == Length
  }

  /** The row is a one-sided element of the list whose length row has path p. */
  predicate Belongs(row: Row, p: Path) {
    IsElement(row) && LengthPath(row.path) == p
  }

  function Elements(rows: seq<Row>, p: Path): nat {
    if rows == [] then 0 else (if Belongs(rows[0], p) then 1 else 0) + Elements(rows[1..], p)
  }

  lemma {:induction false} ElementsConcat(a: seq<Row>, b: seq<Row>, p: Path)
    ensures Elements(a + b, p) == Elements(a, p) + Elements(b, p)
    decreases |a|
  {
    if a == [] {
      assert a + b == b;
    } else {
      assert (a + b)[1..] == a[1..] + b;
      ElementsConcat(a[1..], b, p);
    }
  }

  lemma {:induction false} NoElements(rows: seq<Row>, p: Path)
    requires forall row <- rows :: !Belongs(row, p)
    ensures Elements(rows, p) == 0
    decreases |rows|
  {
    if rows != [] {
      HeadIn(rows);
      NoElements(rows[1..], p);
    }
  }

  lemma HeadIn(rows: seq<Row>)
    requires rows != []
    ensures rows[0] in rows && forall row <- rows[1..] :: row in rows
  {
  }

  lemma {:induction false} SomeElement(rows: seq<Row>, p: Path) returns (j: nat)
    requires Elements(rows, p) > 0
    ensures j < |rows| && Belongs(rows[j], p)
    decreases |rows|
  {
    if Belongs(rows[0], p) {
      j := 0;
    } else {
      var i := SomeElement(rows[1..], p);
      j := i + 1;
    }
  }

  /** Whether an element belongs to a list does not depend on where both stand. */
  lemma BelongsUnder(step: Step, row: Row, p: Path)
    requires IsLength(p)
    ensures Belongs(row.(path := [step] + row.path), [step] + p) <==> Belongs(row, p)
  {
    var under := row.(path := [step] + row.path);
    if row.path != [] {
      assert LengthPath(under.path) == [step] + LengthPath(row.path);
      assert LengthPath(row.path) == p <==> [step] + LengthPath(row.path) == [step] + p by {
        assert ([step] + LengthPath(row.path))[1..] == LengthPath(row.path) && ([step] + p)[1..] == p;
      }
    } else {
      assert |LengthPath(under.path)| == 1;
    }
  }

  lemma {:induction false} ElementsUnder(step: Step, rows: seq<Row>, p: Path)
    requires IsLength(p)
    ensures Elements(Under([step], rows), [step] + p) == Elements(rows, p)
    decreases |rows|
  {
    if rows != [] {
      BelongsUnder(step, rows[0], p);
      assert Under([step], rows)[1..] == Under([step], rows[1..]);
      ElementsUnder(step, rows[1..], p);
    }
  }

  lemma FirstStep(path: Path, p: Path)
    requires path != [] && |p| > 1 && path[0] != p[0]
    ensures LengthPath(path) != p
  {
  }

  /** Rows below other steps have no part in a list below this one. */
  lemma OtherSteps(rows: seq<Row>, step: Step, p: Path)
    requires IsLength(p) && forall row <- rows :: row.path != [] && row.path[0] != step
    ensures Elements(rows, [step] + p) == 0
  {
    forall row | row in rows ensures !Belongs(row, [step] + p) {
      FirstStep(row.path, [step] + p);
    }
    NoElements(rows, [step] + p);
  }

  // ---- the elements of one list -----------------------------------------------------

  /** How many elements only one of the lists has. */
  function Surplus(r: seq<Json>, d: seq<Json>): nat {
    Max(|r|, |d|) - Min(|r|, |d|)
  }

  lemma OneSidedBelongs(i: nat, a: Option<Json>, b: Option<Json>)
    requires a != b && (a == None || b == None)
    ensures Elements(Under([Index(i)], OneSided(a, b)), [Length]) == 1
  {
    var rows := Under([Index(i)], OneSided(a, b));
    UnderRoot([Index(i)], a, b);
    assert LengthPath([Index(i)]) == [Length];
    assert rows[1..] == [];
  }

  lemma TwoSidedApart(i: nat, a: Json, b: Json)
    ensures Elements(Under([Index(i)], Walk(a, b)), [Length]) == 0
  {
    forall row | row in Under([Index(i)], Walk(a, b)) ensures !Belongs(row, [Length]) {
      var inner := UnderInner(Index(i), Walk(a, b), row);
      if inner.path == [] {
        TwoSidedRoot(a, b, inner);
      } else {
        assert |LengthPath(row.path)| > 1;
      }
    }
    NoElements(Under([Index(i)], Walk(a, b)), [Length]);
  }

  lemma {:induction false} SurplusRows(r: Json, d: Json, i: nat)
    requires r.Arr? && d.Arr?
    ensures Elements(WalkItems(r, d, i), [Length])
      == Max(i, Max(|r.items|, |d.items|)) - Max(i, Min(|r.items|, |d.items|))
    decreases |r.items| + |d.items| - i
  {
    var a, b := At(r.items, i), At(d.items, i);
    if a != None || b != None {
      var here := Under([Index(i)], Between(a, b));
      ElementsConcat(here, WalkItems(r, d, i + 1), [Length]);
      SurplusRows(r, d, i + 1);
      if a.Some? && b.Some? {
        TwoSidedApart(i, a.value, b.value);
      } else {
        OneSidedBelongs(i, a, b);
      }
    }
  }

  // ---- every length row has its elements ----------------------------------------------

  /** The row tells two different lengths, and as many rows as they differ by are its elements. */
  ghost predicate HasElements(rows: seq<Row>, row: Row) {
    exists m: nat, n: nat ::
      row.ref == Some(Number(m)) && row.der == Some(Number(n)) && m != n
      && Elements(rows, row.path) == Max(m, n) - Min(m, n)
  }

  /** Every length row of the walk, at any depth, comes with one row for each element only one side has. */
  lemma {:induction false} LengthRowsHaveElements(r: Json, d: Json, row: Row)
    requires WellFormed(r) && WellFormed(d) && row in Walk(r, d) && IsLength(row.path)
    ensures HasElements(Walk(r, d), row)
    decreases r, 1, 0
  {
    if r.Obj? && d.Obj? {
      SortedKeysExact(r.fields, d.fields);
      KeysHaveElements(r, d, SortedKeys(r.fields, d.fields), row);
    } else if ByElement(r, d) {
      var head, tail := LengthRows(r.items, d.items), WalkItems(r, d, 0);
      NoElements(head, row.path);
      ElementsConcat(head, tail, row.path);
      if row in head {
        SurplusRows(r, d, 0);
        LengthRowAt(r, d, row);
      } else {
        ItemsHaveElements(r, d, 0, row);
      }
    }
  }

  lemma LengthRowAt(r: Json, d: Json, row: Row)
    requires r.Arr? && d.Arr? && row in LengthRows(r.items, d.items)
    requires Elements(Walk(r, d), row.path) == Surplus(r.items, d.items)
    ensures HasElements(Walk(r, d), row)
  {
    assert row.ref == Some(Number(|r.items|)) && row.der == Some(Number(|d.items|));
  }

  lemma StepIn(step: Step, a: Option<Json>, b: Option<Json>, row: Row) returns (inner: Row)
    requires row in Under([step], Between(a, b)) && IsLength(row.path) && step != Length
    ensures a.Some? && b.Some? && inner in Walk(a.value, b.value) && IsLength(inner.path)
    ensures row == inner.(path := [step] + inner.path)
  {
    inner := UnderInner(step, Between(a, b), row);
    assert inner.path == [] ==> row.path == [step];
  }

  /** A step's own rows keep their elements among all rows that have no others of that step. */
  lemma Lifted(step: Step, own: seq<Row>, others: seq<Row>, inner: Row)
    requires HasElements(own, inner) && IsLength(inner.path)
    requires forall row <- others :: row.path != [] && row.path[0] != step
    ensures HasElements(Under([step], own) + others, inner.(path := [step] + inner.path))
    ensures HasElements(others + Under([step], own), inner.(path := [step] + inner.path))
  {
    ElementsUnder(step, own, inner.path);
    OtherSteps(others, step, inner.path);
    ElementsConcat(Under([step], own), others, [step] + inner.path);
    ElementsConcat(others, Under([step], own), [step] + inner.path);
  }

  /** Rows of another step do not change what a row's elements are. */
  lemma Beside(step: Step, here: seq<Row>, rest: seq<Row>, row: Row)
    requires HasElements(rest, row) && |row.path| > 1 && row.path[0] != step && IsLength(row.path)
    ensures HasElements(Under([step], here) + rest, row)
  {
    var under, p := Under([step], here), row.path[1..];
    assert row.path == [row.path[0]] + p;
    forall x | x in under ensures x.path != [] && x.path[0] != row.path[0] {
      var inner := UnderInner(step, here, x);
    }
    OtherSteps(under, row.path[0], p);
    ElementsConcat(under, rest, row.path);
  }

  lemma OtherKeys(r: Json, d: Json, ks: seq<string>)
    requires r.Obj? && d.Obj? && Ascending(ks) && ks != []
    ensures forall x <- WalkKeys(r, d, ks[1..]) :: x.path != [] && x.path[0] != Key(ks[0])
  {
    LessIrreflexive(ks[0]);
    forall x | x in WalkKeys(r, d, ks[1..]) ensures x.path != [] && x.path[0] != Key(ks[0]) {
      KeyPaths(r, d, ks[1..], x);
    }
  }

  /** A length row below a later key does not start with the first key. */
  lemma LaterPath(r: Json, d: Json, ks: seq<string>, row: Row)
    requires r.Obj? && d.Obj? && Ascending(ks) && ks != [] && IsLength(row.path)
    requires row in WalkKeys(r, d, ks[1..])
    ensures |row.path| > 1 && row.path[0] != Key(ks[0])
  {
    OtherKeys(r, d, ks);
    KeyPaths(r, d, ks[1..], row);
  }

  /** It keeps its elements when the first key's rows come in front. */
  lemma LaterKeys(r: Json, d: Json, ks: seq<string>, row: Row)
    requires r.Obj? && d.Obj? && ks != [] && IsLength(row.path) && |row.path| > 1 && row.path[0] != Key(ks[0])
    requires HasElements(WalkKeys(r, d, ks[1..]), row)
    ensures HasElements(WalkKeys(r, d, ks), row)
  {
    Beside(Key(ks[0]), Between(Get(r.fields, ks[0]), Get(d.fields, ks[0])), WalkKeys(r, d, ks[1..]), row);
    KeysSplit(r, d, ks);
  }

  lemma KeysSplit(r: Json, d: Json, ks: seq<string>)
    requires r.Obj? && d.Obj? && ks != []
    ensures WalkKeys(r, d, ks)
      == Under([Key(ks[0])], Between(Get(r.fields, ks[0]), Get(d.fields, ks[0]))) + WalkKeys(r, d, ks[1..])
  {
  }

  /** One below the first key keeps them when the later keys' rows follow. */
  lemma FirstKey(r: Json, d: Json, ks: seq<string>, row: Row, inner: Row)
    requires r.Obj? && d.Obj? && Ascending(ks) && ks != []
    requires IsLength(inner.path) && row == inner.(path := [Key(ks[0])] + inner.path)
    requires HasElements(Between(Get(r.fields, ks[0]), Get(d.fields, ks[0])), inner)
    ensures HasElements(WalkKeys(r, d, ks), row)
  {
    var k := ks[0];
    OtherKeys(r, d, ks);
    Lifted(Key(k), Between(Get(r.fields, k), Get(d.fields, k)), WalkKeys(r, d, ks[1..]), inner);
  }

  lemma {:induction false} KeysHaveElements(r: Json, d: Json, ks: seq<string>, row: Row)
    requires r.Obj? && d.Obj? && WellFormed(r) && WellFormed(d) && Ascending(ks)
    requires row in WalkKeys(r, d, ks) && IsLength(row.path)
    ensures HasElements(WalkKeys(r, d, ks), row)
    decreases r, 0, |ks|
  {
    var k := ks[0];
    if row in WalkKeys(r, d, ks[1..]) {
      KeysHaveElements(r, d, ks[1..], row);
      LaterPath(r, d, ks, row);
      LaterKeys(r, d, ks, row);
    } else {
      var a, b := Get(r.fields, k), Get(d.fields, k);
      var inner := StepIn(Key(k), a, b, row);
      assert HasElements(Between(a, b), inner) by {
        GetWellFormed(r, k);
        GetWellFormed(d, k);
        LengthRowsHaveElements(a.value, b.value, inner);
      }
      FirstKey(r, d, ks, row, inner);
    }
  }

  lemma OtherItems(r: Json, d: Json, i: nat)
    requires r.Arr? && d.Arr?
    ensures forall x <- WalkItems(r, d, i + 1) :: x.path != [] && x.path[0] != Index(i)
  {
    forall x | x in WalkItems(r, d, i + 1) ensures x.path != [] && x.path[0] != Index(i) {
      ItemPaths(r, d, i + 1, x);
    }
  }

  lemma {:induction false} ItemsHaveElements(r: Json, d: Json, i: nat, row: Row)
    requires r.Arr? && d.Arr? && WellFormed(r) && WellFormed(d)
    requires row in WalkItems(r, d, i) && IsLength(row.path)
    ensures HasElements(WalkItems(r, d, i), row)
    decreases r, 0, |r.items| + |d.items| - i
  {
    var a, b, rest := At(r.items, i), At(d.items, i), WalkItems(r, d, i + 1);
    OtherItems(r, d, i);
    if row in rest {
      ItemsHaveElements(r, d, i + 1, row);
      ItemPaths(r, d, i + 1, row);
      Beside(Index(i), Between(a, b), rest, row);
    } else {
      var inner := StepIn(Index(i), a, b, row);
      assert HasElements(Between(a, b), inner) by {
        LengthRowsHaveElements(a.value, b.value, inner);
      }
      Lifted(Index(i), Between(a, b), rest, inner);
    }
  }

  // ---- an unjustified change of shape reads as several rows -----------------------------

  /** An unexplained length row always comes with another unexplained row. */
  lemma NeverOneUnexplained(r: Json, d: Json, classify: Row -> Class, result: seq<Divergence>, n: nat)
    requires WellFormed(r) && WellFormed(d) && AllClassified(Walk(r, d), classify, result)
    requires n < |result| && IsLength(result[n].row.path) && result[n].class_ == Unexplained
    ensures exists j :: n < j < |result| && IsElement(result[j].row) && result[j].class_ == Unexplained
  {
    var rows := Walk(r, d);
    assert Classified(rows, classify, result[n], n) && rows[n] in rows;
    LengthRowsHaveElements(r, d, rows[n]);
    var j := SomeElement(rows, rows[n].path);
    PathsDistinct(r, d);
    WalkAnnounced(r, d);
    ElementsShareAClass(rows, classify, result, n, j);
    assert Classified(rows, classify, result[j], j);
    AfterItsLength(rows, n, j);
  }

  lemma AfterItsLength(rows: seq<Row>, n: nat, j: nat)
    requires Distinct(rows) && Announced(rows, false) && n < |rows| && j < |rows|
    requires Belongs(rows[j], rows[n].path)
    ensures n < j
  {
    assert HasLengthRow(rows, j);
  }

  /** A recipe whose only field is a list, such as its GPUs. */
  function Listing(k: string, items: seq<Json>): Json {
    Obj([Field(k, Arr(items))])
  }

  /** One entry against two: with nothing to explain it, two rows, both unexplained. */
  lemma OneEntryMore(k: string)
    ensures Walk(Listing(k, [Obj([])]), Listing(k, [Obj([]), Obj([])]))
      == [Row([Key(k), Length], Some(Number(1)), Some(Number(2))), Row([Key(k), Index(1)], None, Some(Obj([])))]
  {
    var x, y := Arr([Obj([])]), Arr([Obj([]), Obj([])]);
    OneEntryWalk(x, y);
    OneField(k, x, y);
    var rows := Walk(x, y);
    assert [Key(k)] + rows[0].path == [Key(k), Length] && [Key(k)] + rows[1].path == [Key(k), Index(1)];
  }

  lemma OneField(k: string, x: Json, y: Json)
    ensures Walk(Obj([Field(k, x)]), Obj([Field(k, y)])) == Under([Key(k)], Walk(x, y))
  {
    var f, g := [Field(k, x)], [Field(k, y)];
    assert KeysOf(f) == [k] && KeysOf(g) == [k];
    assert Union([k], [k]) == [k] + Union([], []) == [k];
    assert WalkKeys(Obj(f), Obj(g), [k]) == Under([Key(k)], Walk(x, y)) + WalkKeys(Obj(f), Obj(g), []);
  }

  lemma OneEntryWalk(x: Json, y: Json)
    requires x == Arr([Obj([])]) && y == Arr([Obj([]), Obj([])])
    ensures Walk(x, y) == [Row([Length], Some(Number(1)), Some(Number(2))), Row([Index(1)], None, Some(Obj([])))]
  {
    assert Walk(Obj([]), Obj([])) == WalkKeys(Obj([]), Obj([]), SortedKeys([], [])) == [];
    var last := Under([Index(1)], OneSided(None, Some(Obj([]))));
    UnderRoot([Index(1)], None, Some(Obj([])));
    assert WalkItems(x, y, 2) == [];
    assert WalkItems(x, y, 1) == last + WalkItems(x, y, 2);
    assert WalkItems(x, y, 0) == Under([Index(0)], Walk(Obj([]), Obj([]))) + WalkItems(x, y, 1) == WalkItems(x, y, 1);
  }
}
