// Which rows the diff emits, and in which order (python/autoconfig/compare.py):
// a row stands exactly where the two recipes stop being comparable and differ,
// and the rows ascend.
module RecipeLeaves {
  import opened Options
  import opened RecipeTree
  import opened RecipeDiff

  /** The walk goes on below both: two objects, or two lists of objects of which one has an element. */
  predicate Comparable(a: Json, b: Json) {
    || (a.Obj? && b.Obj?)
    || (a.Arr? && b.Arr? && |a.items| + |b.items| > 0
        && (forall x <- a.items :: x.Obj?) && (forall x <- b.items :: x.Obj?))
  }

  /**
   * Along the path everything is comparable, and where it ends the two sides
   * differ, are not comparable any more, and are what the row says; or the path
   * ends in the differing lengths of two comparable lists.
   */
  predicate IsLeaf(a: Option<Json>, b: Option<Json>, path: Path, ref: Option<Json>, der: Option<Json>)
    decreases |path|
  {
    if path == [] then
      ref == a && der == b && a != b && !(a.Some? && b.Some? && Comparable(a.value, b.value))
    else
      && a.Some? && b.Some? && Comparable(a.value, b.value)
      && match path[0]
         case Key(k) =>
           a.value.Obj? && IsLeaf(Get(a.value.fields, k), Get(b.value.fields, k), path[1..], ref, der)
         case Index(i) =>
           a.value.Arr? && IsLeaf(At(a.value.items, i), At(b.value.items, i), path[1..], ref, der)
         case Length =>
           a.value.Arr? && path[1..] == [] && |a.value.items| != |b.value.items|
           && ref == Some(Number(|a.value.items|)) && der == Some(Number(|b.value.items|))
  }

  predicate LeafRow(r: Json, d: Json, row: Row) {
    IsLeaf(Some(r), Some(d), row.path, row.ref, row.der)
  }

  lemma ComparableLists(r: Json, d: Json)
    requires r.Arr? && d.Arr?
    ensures Comparable(r, d) <==> ByElement(r, d)
  {
    if ByElement(r, d) {
      assert forall x <- r.items :: x.Obj?;
    }
    if Comparable(r, d) {
      assert forall i :: 0 <= i < |r.items| ==> r.items[i] in r.items;
      assert forall i :: 0 <= i < |d.items| ==> d.items[i] in d.items;
    }
  }

  lemma BelowStep(step: Step, here: seq<Row>, row: Row)
    ensures row in Under([step], here) <==>
      row.path != [] && row.path[0] == step && row.(path := row.path[1..]) in here
  {
    if row in Under([step], here) {
      var inner := UnderInner(step, here, row);
      assert inner == row.(path := row.path[1..]);
    }
    if row.path != [] && row.path[0] == step && row.(path := row.path[1..]) in here {
      var i :| 0 <= i < |here| && here[i] == row.(path := row.path[1..]);
      assert [step] + row.path[1..] == row.path;
      assert Under([step], here)[i] == row;
    }
  }

  /** What stands between two sides is there exactly when it is a leaf of theirs. */
  ghost predicate Exact(a: Option<Json>, b: Option<Json>, rows: seq<Row>) {
    forall row :: row in rows <==> IsLeaf(a, b, row.path, row.ref, row.der)
  }

  lemma OneSidedExact(a: Option<Json>, b: Option<Json>)
    requires a == None || b == None
    ensures Exact(a, b, OneSided(a, b))
  {
    forall row ensures row in OneSided(a, b) <==> IsLeaf(a, b, row.path, row.ref, row.der) {
      assert row in OneSided(a, b) ==> row == Row([], a, b);
      assert row.path == [] ==> row == Row([], row.ref, row.der);
    }
  }

  /** The rows of the walk are exactly the leaves. */
  lemma {:induction false} RowsExactly(r: Json, d: Json)
    requires WellFormed(r) && WellFormed(d)
    ensures Exact(Some(r), Some(d), Walk(r, d))
    decreases r, 1, 0
  {
    if r.Obj? && d.Obj? {
      SortedKeysExact(r.fields, d.fields);
      forall row ensures row in Walk(r, d) <==> LeafRow(r, d, row) {
        KeyRowsExactly(r, d, SortedKeys(r.fields, d.fields), row);
        if row.path != [] && row.path[0].Key? && row.path[0].key !in SortedKeys(r.fields, d.fields) {
          AbsentKey(r, d, row);
        }
      }
    } else if r.Arr? && d.Arr? && Comparable(r, d) {
      ComparableLists(r, d);
      forall row ensures row in Walk(r, d) <==> LeafRow(r, d, row) {
        ItemRowsExactly(r, d, 0, row);
        LengthRowExactly(r, d, row);
      }
    } else {
      if r.Arr? && d.Arr? {
        ComparableLists(r, d);
      }
      forall row ensures row in Walk(r, d) <==> LeafRow(r, d, row) {
        assert row.path == [] ==> row == Row([], row.ref, row.der);
      }
    }
  }

  /** A key that neither object has is no leaf. */
  lemma AbsentKey(r: Json, d: Json, row: Row)
    requires r.Obj? && d.Obj? && row.path != [] && row.path[0].Key?
    requires Get(r.fields, row.path[0].key) == None && Get(d.fields, row.path[0].key) == None
    ensures !LeafRow(r, d, row)
  {
    NothingThere(row.path[1..], row.ref, row.der);
  }

  lemma NothingThere(path: Path, ref: Option<Json>, der: Option<Json>)
    ensures !IsLeaf(None, None, path, ref, der)
  {
  }

  lemma {:induction false} KeyRowsExactly(r: Json, d: Json, ks: seq<string>, row: Row)
    requires r.Obj? && d.Obj? && WellFormed(r) && WellFormed(d)
    ensures row in WalkKeys(r, d, ks) <==>
      row.path != [] && row.path[0].Key? && row.path[0].key in ks && LeafRow(r, d, row)
    decreases r, 0, |ks|
  {
    if ks != [] {
      var k := ks[0];
      var a, b := Get(r.fields, k), Get(d.fields, k);
      if a.Some? && b.Some? {
        GetWellFormed(r, k);
        GetWellFormed(d, k);
        RowsExactly(a.value, b.value);
      } else {
        OneSidedExact(a, b);
      }
      KeyRowsExactly(r, d, ks[1..], row);
      BelowStep(Key(k), Between(a, b), row);
      OneKey(r, d, ks, row);
    }
  }

  lemma OneKey(r: Json, d: Json, ks: seq<string>, row: Row)
    requires r.Obj? && d.Obj? && ks != []
    ensures row in WalkKeys(r, d, ks) <==>
      row in Under([Key(ks[0])], Between(Get(r.fields, ks[0]), Get(d.fields, ks[0]))) || row in WalkKeys(r, d, ks[1..])
    ensures forall k :: k in ks <==> k == ks[0] || k in ks[1..]
  {
    assert WalkKeys(r, d, ks)
        == Under([Key(ks[0])], Between(Get(r.fields, ks[0]), Get(d.fields, ks[0]))) + WalkKeys(r, d, ks[1..]);
    assert ks == [ks[0]] + ks[1..];
  }

  lemma {:induction false} ItemRowsExactly(r: Json, d: Json, i: nat, row: Row)
    requires r.Arr? && d.Arr? && Comparable(r, d) && WellFormed(r) && WellFormed(d)
    ensures row in WalkItems(r, d, i) <==>
      row.path != [] && row.path[0].Index? && row.path[0].index >= i && LeafRow(r, d, row)
    decreases r, 0, |r.items| + |d.items| - i
  {
    var a, b := At(r.items, i), At(d.items, i);
    if a == None && b == None {
      NoItem(r, d, i, row);
    } else {
      if a.Some? && b.Some? {
        RowsExactly(a.value, b.value);
      } else {
        OneSidedExact(a, b);
      }
      ItemRowsExactly(r, d, i + 1, row);
      BelowStep(Index(i), Between(a, b), row);
      assert WalkItems(r, d, i) == Under([Index(i)], Between(a, b)) + WalkItems(r, d, i + 1);
    }
  }

  lemma NoItem(r: Json, d: Json, i: nat, row: Row)
    requires r.Arr? && d.Arr? && |r.items| <= i && |d.items| <= i
    ensures row.path != [] && row.path[0].Index? && row.path[0].index >= i ==> !LeafRow(r, d, row)
  {
    if row.path != [] {
      NothingThere(row.path[1..], row.ref, row.der);
    }
  }

  lemma LengthRowExactly(r: Json, d: Json, row: Row)
    requires r.Arr? && d.Arr? && Comparable(r, d)
    ensures row in LengthRows(r.items, d.items) <==> row.path != [] && row.path[0] == Length && LeafRow(r, d, row)
  {
    if row.path != [] && row.path[0] == Length && LeafRow(r, d, row) {
      assert row.path == [Length];
    }
  }

  /** So no row holds two objects, or two lists of objects with an element in one of them. */
  lemma RowsAreLeaves(r: Json, d: Json, row: Row)
    requires WellFormed(r) && WellFormed(d) && row in Walk(r, d) && row.ref.Some? && row.der.Some?
    ensures !Comparable(row.ref.value, row.der.value)
  {
    RowsExactly(r, d);
    LeafEnds(Some(r), Some(d), row.path, row.ref, row.der);
  }

  lemma {:induction false} LeafEnds(a: Option<Json>, b: Option<Json>, path: Path, ref: Option<Json>, der: Option<Json>)
    requires IsLeaf(a, b, path, ref, der) && ref.Some? && der.Some?
    ensures !Comparable(ref.value, der.value)
    decreases |path|
  {
    if path != [] && path[0].Key? {
      LeafEnds(Get(a.value.fields, path[0].key), Get(b.value.fields, path[0].key), path[1..], ref, der);
    } else if path != [] && path[0].Index? {
      LeafEnds(At(a.value.items, path[0].index), At(b.value.items, path[0].index), path[1..], ref, der);
    }
  }

  // ---- their order ----------------------------------------------------------------

  /** Keys in code-point order; a list's length before its elements, those by number. */
  predicate StepLess(a: Step, b: Step) {
    match (a, b)
    case (Key(k), Key(l)) => Less(k, l)
    case (Index(i), Index(j)) => i < j
    case (Length, Index(_)) => true
    case _ => false
  }

  predicate PathLess(p: Path, q: Path) {
    p != [] && q != [] && (StepLess(p[0], q[0]) || (p[0] == q[0] && PathLess(p[1..], q[1..])))
  }

  ghost predicate Ascend(rows: seq<Row>) {
    forall i, j :: 0 <= i < j < |rows| ==> PathLess(rows[i].path, rows[j].path)
  }

  lemma AscendUnder(step: Step, rows: seq<Row>)
    requires Ascend(rows)
    ensures Ascend(Under([step], rows))
  {
    var under := Under([step], rows);
    forall i, j | 0 <= i < j < |rows| ensures PathLess(under[i].path, under[j].path) {
      assert under[i].path[1..] == rows[i].path && under[j].path[1..] == rows[j].path;
    }
  }

  lemma AscendConcat(a: seq<Row>, b: seq<Row>)
    requires Ascend(a) && Ascend(b) && forall x, y :: x in a && y in b ==> PathLess(x.path, y.path)
    ensures Ascend(a + b)
  {
    var ab := a + b;
    forall i, j | 0 <= i < j < |ab| ensures PathLess(ab[i].path, ab[j].path) {
      if i < |a| <= j {
        assert ab[i] in a && ab[j] in b;
      }
    }
  }

  /** The rows come in the order of their paths, each path once. */
  lemma {:induction false} RowsAscend(r: Json, d: Json)
    requires WellFormed(r) && WellFormed(d)
    ensures Ascend(Walk(r, d))
    decreases r, 1, 0
  {
    if r.Obj? && d.Obj? {
      SortedKeysExact(r.fields, d.fields);
      KeysAscend(r, d, SortedKeys(r.fields, d.fields));
    } else if ByElement(r, d) {
      ItemsAscend(r, d, 0);
      var head, rows := LengthRows(r.items, d.items), WalkItems(r, d, 0);
      forall x, y | x in head && y in rows ensures PathLess(x.path, y.path) {
        ItemPaths(r, d, 0, y);
      }
      AscendConcat(head, rows);
    }
  }

  lemma {:induction false} KeysAscend(r: Json, d: Json, ks: seq<string>)
    requires r.Obj? && d.Obj? && WellFormed(r) && WellFormed(d) && Ascending(ks)
    ensures Ascend(WalkKeys(r, d, ks))
    decreases r, 0, |ks|
  {
    if ks != [] {
      var k := ks[0];
      var a, b := Get(r.fields, k), Get(d.fields, k);
      if a.Some? && b.Some? {
        GetWellFormed(r, k);
        GetWellFormed(d, k);
        RowsAscend(a.value, b.value);
      }
      AscendUnder(Key(k), Between(a, b));
      KeysAscend(r, d, ks[1..]);
      KeysInOrder(r, d, ks, Between(a, b));
      AscendConcat(Under([Key(k)], Between(a, b)), WalkKeys(r, d, ks[1..]));
    }
  }

  lemma KeysInOrder(r: Json, d: Json, ks: seq<string>, here: seq<Row>)
    requires r.Obj? && d.Obj? && ks != [] && Ascending(ks)
    ensures forall x, y :: x in Under([Key(ks[0])], here) && y in WalkKeys(r, d, ks[1..]) ==> PathLess(x.path, y.path)
  {
    forall x, y | x in Under([Key(ks[0])], here) && y in WalkKeys(r, d, ks[1..]) ensures PathLess(x.path, y.path) {
      var inner := UnderInner(Key(ks[0]), here, x);
      KeyPaths(r, d, ks[1..], y);
    }
  }

  lemma {:induction false} ItemsAscend(r: Json, d: Json, i: nat)
    requires r.Arr? && d.Arr? && WellFormed(r) && WellFormed(d)
    ensures Ascend(WalkItems(r, d, i))
    decreases r, 0, |r.items| + |d.items| - i
  {
    var a, b := At(r.items, i), At(d.items, i);
    if a != None || b != None {
      if a.Some? && b.Some? {
        RowsAscend(a.value, b.value);
      }
      AscendUnder(Index(i), Between(a, b));
      ItemsAscend(r, d, i + 1);
      ItemsInOrder(r, d, i, Between(a, b));
      AscendConcat(Under([Index(i)], Between(a, b)), WalkItems(r, d, i + 1));
    }
  }

  lemma ItemsInOrder(r: Json, d: Json, i: nat, here: seq<Row>)
    requires r.Arr? && d.Arr?
    ensures forall x, y :: x in Under([Index(i)], here) && y in WalkItems(r, d, i + 1) ==> PathLess(x.path, y.path)
  {
    forall x, y | x in Under([Index(i)], here) && y in WalkItems(r, d, i + 1) ensures PathLess(x.path, y.path) {
      var inner := UnderInner(Index(i), here, x);
      ItemPaths(r, d, i + 1, y);
    }
  }
}
