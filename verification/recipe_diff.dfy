// The recipe diff (python/autoconfig/compare.py): the walk over two recipes,
// the rows it emits, and what the rows mean as an edit script.
module RecipeDiff {
  import opened Options
  import opened RecipeTree

  datatype Step = Key(key: string) | Index(index: nat) | Length

  type Path = seq<Step>

  /** One divergence; None is the `<missing>` marker. */
  datatype Row = Row(path: Path, ref: Option<Json>, der: Option<Json>)

  function Under(path: Path, rows: seq<Row>): (r: seq<Row>)
    ensures |r| == |rows|
  {
    seq(|rows|, i requires 0 <= i < |rows| => rows[i].(path := path + rows[i].path))
  }

  function Number(n: nat): Json {
    Atom(Num(n))
  }

  /** Two lists are compared element by element when all their elements are objects and there is one. */
  predicate ByElement(r: Json, d: Json) {
    r.Arr? && d.Arr? && (r.items != [] || d.items != []) && AllObjects(r.items) && AllObjects(d.items)
  }

  predicate AllObjects(items: seq<Json>) {
    forall i :: 0 <= i < |items| ==> items[i].Obj?
  }

  function At(items: seq<Json>, i: nat): Option<Json> {
    if i < |items| then Some(items[i]) else None
  }

  // ---- the walk, with paths relative to where it stands -----------------------

  function Walk(r: Json, d: Json): seq<Row>
    decreases r, 1, 0
  {
    if r.Obj? && d.Obj? then WalkKeys(r, d, SortedKeys(r.fields, d.fields))
    else if ByElement(r, d) then LengthRows(r.items, d.items) + WalkItems(r, d, 0)
    else if r != d then [Row([], Some(r), Some(d))]
    else []
  }

  function WalkKeys(r: Json, d: Json, ks: seq<string>): seq<Row>
    requires r.Obj? && d.Obj?
    decreases r, 0, |ks|
  {
    if ks == [] then []
    else
      var a, b := Get(r.fields, ks[0]), Get(d.fields, ks[0]);
      Under([Key(ks[0])], if a.Some? && b.Some? then Walk(a.value, b.value) else OneSided(a, b))
      + WalkKeys(r, d, ks[1..])
  }

  /** A value that only one side has is a row of its own. */
  function OneSided(a: Option<Json>, b: Option<Json>): seq<Row> {
    if a != b then [Row([], a, b)] else []
  }

  function LengthRows(r: seq<Json>, d: seq<Json>): seq<Row> {
    if |r| != |d| then [Row([Length], Some(Number(|r|)), Some(Number(|d|)))] else []
  }

  function WalkItems(r: Json, d: Json, i: nat): seq<Row>
    requires r.Arr? && d.Arr?
    decreases r, 0, |r.items| + |d.items| - i
  {
    var a, b := At(r.items, i), At(d.items, i);
    if a == None && b == None then []
    else
      Under([Index(i)], if a.Some? && b.Some? then Walk(a.value, b.value) else OneSided(a, b))
      + WalkItems(r, d, i + 1)
  }

  /** What the walk emits for the two sides of one key or one element. */
  function Between(a: Option<Json>, b: Option<Json>): seq<Row> {
    if a.Some? && b.Some? then Walk(a.value, b.value) else OneSided(a, b)
  }

  // ---- rows under a longer path -----------------------------------------------

  lemma UnderConcat(path: Path, a: seq<Row>, b: seq<Row>)
    ensures Under(path, a + b) == Under(path, a) + Under(path, b)
  {
  }

  lemma UnderUnder(outer: Path, step: Path, rows: seq<Row>)
    ensures Under(outer, Under(step, rows)) == Under(outer + step, rows)
  {
    forall i | 0 <= i < |rows| ensures outer + (step + rows[i].path) == outer + step + rows[i].path {
    }
  }

  lemma UnderEmpty(rows: seq<Row>)
    ensures Under([], rows) == rows
  {
    forall i | 0 <= i < |rows| ensures [] + rows[i].path == rows[i].path {
    }
  }

  lemma UnderInner(step: Step, rows: seq<Row>, row: Row) returns (inner: Row)
    requires row in Under([step], rows)
    ensures inner in rows && row == inner.(path := [step] + inner.path)
    ensures row.path[0] == step && row.path[1..] == inner.path
  {
    var i :| 0 <= i < |rows| && Under([step], rows)[i] == row;
    inner := rows[i];
  }

  // ---- the rows as an edit script -----------------------------------------------

  function Resize(items: seq<Json>, n: int): seq<Json> {
    if n <= 0 then []
    else if n <= |items| then items[..n]
    else items + seq(n - |items|, _ => Atom(Null))
  }

  /**
   * Carry out one row: set or drop what the path names. A length row resizes
   * its list; an element past the end was dropped by the resize.
   */
  function Edit(t: Option<Json>, path: Path, v: Option<Json>): Option<Json>
    decreases |path|
  {
    if path == [] then v
    else if t.None? then t
    else
      match path[0]
      case Key(k) =>
        if t.value.Obj?
        then Some(Obj(Put(t.value.fields, k, Edit(Get(t.value.fields, k), path[1..], v))))
        else t
      case Index(i) =>
        if t.value.Arr? && i < |t.value.items|
        then
          var e := Edit(Some(t.value.items[i]), path[1..], v);
          if e.Some? then Some(Arr(t.value.items[i := e.value])) else t
        else t
      case Length =>
        if t.value.Arr? && v.Some? && v.value.Atom? && v.value.scalar.Num?
        then Some(Arr(Resize(t.value.items, v.value.scalar.n)))
        else t
  }

  function Apply(rows: seq<Row>, t: Option<Json>): Option<Json> {
    if rows == [] then t else Apply(rows[1..], Edit(t, rows[0].path, rows[0].der))
  }

  lemma {:induction false} ApplyConcat(a: seq<Row>, b: seq<Row>, t: Option<Json>)
    ensures Apply(a + b, t) == Apply(b, Apply(a, t))
  {
    if a == [] {
      assert a + b == b;
    } else {
      assert (a + b)[1..] == a[1..] + b;
      ApplyConcat(a[1..], b, Edit(t, a[0].path, a[0].der));
    }
  }

  /** Rows under a key edit the value of that key. */
  lemma {:induction false} ApplyUnderKey(k: string, rows: seq<Row>, fields: seq<Field>)
    requires Sorted(fields)
    ensures Apply(Under([Key(k)], rows), Some(Obj(fields))) == Some(Obj(Put(fields, k, Apply(rows, Get(fields, k)))))
  {
    if rows == [] {
      PutGet(fields, k);
    } else {
      var under := Under([Key(k)], rows);
      assert under[0].path[1..] == rows[0].path && under[1..] == Under([Key(k)], rows[1..]);
      var e := Edit(Get(fields, k), rows[0].path, rows[0].der);
      PutSorted(fields, k, e);
      GetPut(fields, k, e, k);
      ApplyUnderKey(k, rows[1..], Put(fields, k, e));
      PutPut(fields, k, e, Apply(rows[1..], e));
    }
  }

  /** No row drops the very value the rows are about. */
  predicate Keeps(rows: seq<Row>) {
    forall row <- rows :: row.path == [] ==> row.der.Some?
  }

  lemma EditKeeps(t: Json, path: Path, v: Option<Json>)
    requires path == [] ==> v.Some?
    ensures Edit(Some(t), path, v).Some?
  {
  }

  /** Rows under an index edit that element. */
  lemma {:induction false} ApplyUnderIndex(i: nat, rows: seq<Row>, items: seq<Json>)
    requires i < |items| && Keeps(rows)
    ensures var e := Apply(rows, Some(items[i]));
      e.Some? && Apply(Under([Index(i)], rows), Some(Arr(items))) == Some(Arr(items[i := e.value]))
  {
    if rows == [] {
      assert items[i := items[i]] == items;
    } else {
      var under := Under([Index(i)], rows);
      assert under[0].path[1..] == rows[0].path && under[1..] == Under([Index(i)], rows[1..]);
      assert rows[0] in rows;
      EditKeeps(items[i], rows[0].path, rows[0].der);
      var e := Edit(Some(items[i]), rows[0].path, rows[0].der);
      forall row | row in rows[1..] ensures row.path == [] ==> row.der.Some? {
        assert row in rows;
      }
      ApplyUnderIndex(i, rows[1..], items[i := e.value]);
      var last := Apply(rows[1..], e);
      assert items[i := e.value][i := last.value] == items[i := last.value];
    }
  }

  /** Rows about an element past the end change nothing. */
  lemma {:induction false} ApplyPastEnd(i: nat, rows: seq<Row>, items: seq<Json>)
    requires i >= |items|
    ensures Apply(Under([Index(i)], rows), Some(Arr(items))) == Some(Arr(items))
  {
    if rows != [] {
      assert Under([Index(i)], rows)[1..] == Under([Index(i)], rows[1..]);
      ApplyPastEnd(i, rows[1..], items);
    }
  }

  // ---- where the rows stand -----------------------------------------------------

  lemma {:induction false} KeyPaths(r: Json, d: Json, ks: seq<string>, row: Row)
    requires r.Obj? && d.Obj? && row in WalkKeys(r, d, ks)
    ensures row.path != [] && row.path[0].Key? && row.path[0].key in ks
    decreases |ks|
  {
    var head := Under([Key(ks[0])], Between(Get(r.fields, ks[0]), Get(d.fields, ks[0])));
    assert WalkKeys(r, d, ks) == head + WalkKeys(r, d, ks[1..]);
    if row in head {
      var inner := UnderInner(Key(ks[0]), Between(Get(r.fields, ks[0]), Get(d.fields, ks[0])), row);
    } else {
      KeyPaths(r, d, ks[1..], row);
    }
  }

  lemma {:induction false} ItemPaths(r: Json, d: Json, i: nat, row: Row)
    requires r.Arr? && d.Arr? && row in WalkItems(r, d, i)
    ensures row.path != [] && row.path[0].Index? && row.path[0].index >= i
    decreases |r.items| + |d.items| - i
  {
    var head := Under([Index(i)], Between(At(r.items, i), At(d.items, i)));
    assert WalkItems(r, d, i) == head + WalkItems(r, d, i + 1);
    if row in head {
      var inner := UnderInner(Index(i), Between(At(r.items, i), At(d.items, i)), row);
    } else {
      ItemPaths(r, d, i + 1, row);
    }
  }

  lemma WalkKeeps(r: Json, d: Json)
    ensures Keeps(Walk(r, d))
  {
    forall row | row in Walk(r, d) ensures row.path == [] ==> row.der.Some? {
      if r.Obj? && d.Obj? {
        KeyPaths(r, d, SortedKeys(r.fields, d.fields), row);
      } else if ByElement(r, d) && row !in LengthRows(r.items, d.items) {
        ItemPaths(r, d, 0, row);
      }
    }
  }

  // ---- the rows turn the reference into the derived recipe ------------------------

  function PutAll(fields: seq<Field>, d: seq<Field>, ks: seq<string>): seq<Field>
    decreases |ks|
  {
    if ks == [] then fields else PutAll(Put(fields, ks[0], Get(d, ks[0])), d, ks[1..])
  }

  lemma {:induction false} GetPutAll(fields: seq<Field>, d: seq<Field>, ks: seq<string>, k: string)
    requires Sorted(fields)
    ensures Sorted(PutAll(fields, d, ks))
    ensures Get(PutAll(fields, d, ks), k) == if k in ks then Get(d, k) else Get(fields, k)
    decreases |ks|
  {
    if ks != [] {
      HeadAndTail(ks, k);
      PutSorted(fields, ks[0], Get(d, ks[0]));
      GetPut(fields, ks[0], Get(d, ks[0]), k);
      GetPutAll(Put(fields, ks[0], Get(d, ks[0])), d, ks[1..], k);
    }
  }

  lemma PutAllIsDerived(r: seq<Field>, d: seq<Field>)
    requires Sorted(r) && Sorted(d)
    ensures PutAll(r, d, SortedKeys(r, d)) == d
  {
    var ks := SortedKeys(r, d);
    SortedKeysExact(r, d);
    forall k ensures Sorted(PutAll(r, d, ks)) && Get(PutAll(r, d, ks), k) == Get(d, k) {
      GetPutAll(r, d, ks, k);
    }
    SameLookups(PutAll(r, d, ks), d);
  }

  lemma GetWellFormed(t: Json, k: string)
    requires t.Obj? && WellFormed(t) && Get(t.fields, k).Some?
    ensures WellFormed(Get(t.fields, k).value)
  {
  }

  /** Applying the rows of the walk, one after the other, to the reference yields the derived recipe. */
  lemma {:induction false} RowsRebuildDerived(r: Json, d: Json)
    requires WellFormed(r) && WellFormed(d)
    ensures Apply(Walk(r, d), Some(r)) == Some(d)
    decreases r, 1, 0
  {
    if r.Obj? && d.Obj? {
      SortedKeysExact(r.fields, d.fields);
      KeysRebuild(r, d, SortedKeys(r.fields, d.fields), r.fields);
      PutAllIsDerived(r.fields, d.fields);
    } else if ByElement(r, d) {
      var sized := if |r.items| != |d.items| then Resize(r.items, |d.items|) else r.items;
      var rows := LengthRows(r.items, d.items);
      ApplyConcat(rows, WalkItems(r, d, 0), Some(r));
      if rows != [] {
        assert rows[1..] == [] && rows[0].path == [Length];
      }
      ItemsRebuild(r, d, 0, sized);
    }
  }

  lemma {:induction false} KeysRebuild(r: Json, d: Json, ks: seq<string>, fields: seq<Field>)
    requires r.Obj? && d.Obj? && WellFormed(r) && WellFormed(d) && Sorted(fields) && Ascending(ks)
    requires forall k <- ks :: Get(fields, k) == Get(r.fields, k)
    ensures Apply(WalkKeys(r, d, ks), Some(Obj(fields))) == Some(Obj(PutAll(fields, d.fields, ks)))
    decreases r, 0, |ks|
  {
    if ks != [] {
      var k := ks[0];
      var a, b := Get(r.fields, k), Get(d.fields, k);
      assert k in ks;
      if a.Some? && b.Some? {
        GetWellFormed(r, k);
        GetWellFormed(d, k);
        RowsRebuildDerived(a.value, b.value);
      }
      ApplyUnderKey(k, Between(a, b), fields);
      ApplyConcat(Under([Key(k)], Between(a, b)), WalkKeys(r, d, ks[1..]), Some(Obj(fields)));
      OthersUntouched(fields, k, b, ks, r.fields);
      KeysRebuild(r, d, ks[1..], Put(fields, k, b));
    }
  }

  lemma OthersUntouched(fields: seq<Field>, k: string, v: Option<Json>, ks: seq<string>, r: seq<Field>)
    requires Sorted(fields) && Ascending(ks) && ks != [] && ks[0] == k
    requires forall k' <- ks :: Get(fields, k') == Get(r, k')
    ensures Sorted(Put(fields, k, v)) && forall k' <- ks[1..] :: Get(Put(fields, k, v), k') == Get(r, k')
  {
    PutSorted(fields, k, v);
    forall k' | k' in ks[1..] ensures Get(Put(fields, k, v), k') == Get(r, k') {
      assert k' in ks;
      LessIrreflexive(k);
      GetPut(fields, k, v, k');
    }
  }

  lemma {:induction false} ItemsRebuild(r: Json, d: Json, i: nat, cur: seq<Json>)
    requires r.Arr? && d.Arr? && WellFormed(r) && WellFormed(d) && |cur| == |d.items|
    requires forall j :: 0 <= j < |cur| ==> (j < i ==> cur[j] == d.items[j])
    requires forall j :: i <= j < |cur| && j < |r.items| ==> cur[j] == r.items[j]
    ensures Apply(WalkItems(r, d, i), Some(Arr(cur))) == Some(Arr(d.items))
    decreases r, 0, |r.items| + |d.items| - i
  {
    var a, b := At(r.items, i), At(d.items, i);
    if a == None && b == None {
      assert cur == d.items;
    } else {
      ApplyConcat(Under([Index(i)], Between(a, b)), WalkItems(r, d, i + 1), Some(Arr(cur)));
      if b.None? {
        ApplyPastEnd(i, Between(a, b), cur);
        ItemsRebuild(r, d, i + 1, cur);
      } else {
        if a.Some? {
          RowsRebuildDerived(a.value, b.value);
          WalkKeeps(a.value, b.value);
        }
        ApplyUnderIndex(i, Between(a, b), cur);
        ItemsRebuild(r, d, i + 1, cur[i := b.value]);
      }
    }
  }

  // ---- every row tells both sides' values -----------------------------------------

  /** What a recipe holds at a path; a list answers Length with its length. */
  function Lookup(t: Option<Json>, path: Path): Option<Json>
    decreases |path|
  {
    if path == [] || t.None? then t
    else
      match path[0]
      case Key(k) => if t.value.Obj? then Lookup(Get(t.value.fields, k), path[1..]) else None
      case Index(i) => if t.value.Arr? then Lookup(At(t.value.items, i), path[1..]) else None
      case Length => if t.value.Arr? then Some(Number(|t.value.items|)) else None
  }

  ghost predicate Truthful(row: Row, r: Option<Json>, d: Option<Json>) {
    row.ref == Lookup(r, row.path) && row.der == Lookup(d, row.path) && row.ref != row.der
  }

  /** A row gives the two recipes' values at its path, and they differ. */
  lemma {:induction false} RowsAreTruthful(r: Json, d: Json, row: Row)
    requires row in Walk(r, d)
    ensures Truthful(row, Some(r), Some(d))
    decreases r, 1, 0
  {
    if r.Obj? && d.Obj? {
      KeyRowsTruthful(r, d, SortedKeys(r.fields, d.fields), row);
    } else if ByElement(r, d) && row !in LengthRows(r.items, d.items) {
      ItemRowsTruthful(r, d, 0, row);
    }
  }

  lemma {:induction false} KeyRowsTruthful(r: Json, d: Json, ks: seq<string>, row: Row)
    requires r.Obj? && d.Obj? && row in WalkKeys(r, d, ks)
    ensures Truthful(row, Some(r), Some(d))
    decreases r, 0, |ks|
  {
    var k := ks[0];
    var a, b := Get(r.fields, k), Get(d.fields, k);
    assert WalkKeys(r, d, ks) == Under([Key(k)], Between(a, b)) + WalkKeys(r, d, ks[1..]);
    if row in WalkKeys(r, d, ks[1..]) {
      KeyRowsTruthful(r, d, ks[1..], row);
    } else {
      var inner := UnderInner(Key(k), Between(a, b), row);
      if a.Some? && b.Some? {
        RowsAreTruthful(a.value, b.value, inner);
      }
    }
  }

  lemma {:induction false} ItemRowsTruthful(r: Json, d: Json, i: nat, row: Row)
    requires r.Arr? && d.Arr? && row in WalkItems(r, d, i)
    ensures Truthful(row, Some(r), Some(d))
    decreases r, 0, |r.items| + |d.items| - i
  {
    var a, b := At(r.items, i), At(d.items, i);
    assert WalkItems(r, d, i) == Under([Index(i)], Between(a, b)) + WalkItems(r, d, i + 1);
    if row in WalkItems(r, d, i + 1) {
      ItemRowsTruthful(r, d, i + 1, row);
    } else {
      var inner := UnderInner(Index(i), Between(a, b), row);
      if a.Some? && b.Some? {
        RowsAreTruthful(a.value, b.value, inner);
      }
    }
  }

  /** The walk is silent exactly on equal recipes. */
  lemma SilentIffEqual(r: Json, d: Json)
    requires WellFormed(r) && WellFormed(d)
    ensures Walk(r, d) == [] <==> r == d
  {
    RowsRebuildDerived(r, d);
    if r == d && Walk(r, d) != [] {
      RowsAreTruthful(r, d, Walk(r, d)[0]);
    }
  }
}
