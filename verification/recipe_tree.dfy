// Recipes as trees (python/autoconfig/compare.py): scalars, lists and objects.
// An object is the association list of its keys in sorted order, the order in
// which the diff visits them.
module RecipeTree {
  import opened Options

  datatype Scalar = Null | Flag(b: bool) | Num(n: int) | Text(s: string)

  datatype Json = Atom(scalar: Scalar) | Arr(items: seq<Json>) | Obj(fields: seq<Field>)

  datatype Field = Field(key: string, value: Json)

  // ---- keys -----------------------------------------------------------------

  /** Code-point order of keys. */
  predicate Less(a: string, b: string) {
    if b == [] then false
    else if a == [] then true
    else a[0] < b[0] || (a[0] == b[0] && Less(a[1..], b[1..]))
  }

  /** At the first difference the smaller character wins; a proper prefix comes first. */
  lemma {:induction false} LessExactly(a: string, b: string, n: nat)
    requires n <= |a| && n <= |b| && a[..n] == b[..n]
    requires n < |a| && n < |b| ==> a[n] != b[n]
    requires n == |a| || n == |b| || a[n] != b[n]
    ensures Less(a, b) <==> n < |b| && (n == |a| || a[n] < b[n])
    decreases n
  {
    if n > 0 {
      assert a[0] == a[..n][0] && b[0] == b[..n][0];
      assert a[1..][..n - 1] == a[..n][1..] && b[1..][..n - 1] == b[..n][1..];
      LessExactly(a[1..], b[1..], n - 1);
    }
  }

  lemma {:induction false} LessIrreflexive(a: string)
    ensures !Less(a, a)
  {
    if a != [] {
      LessIrreflexive(a[1..]);
    }
  }

  lemma {:induction false} LessTransitive(a: string, b: string, c: string)
    requires Less(a, b) && Less(b, c)
    ensures Less(a, c)
  {
    if a != [] && a[0] == b[0] == c[0] {
      LessTransitive(a[1..], b[1..], c[1..]);
    }
  }

  lemma {:induction false} LessTotal(a: string, b: string)
    ensures Less(a, b) || a == b || Less(b, a)
  {
    if a != [] && b != [] && a[0] == b[0] {
      LessTotal(a[1..], b[1..]);
      assert a == [a[0]] + a[1..] && b == [b[0]] + b[1..];
    }
  }

  predicate KeysAbove(fields: seq<Field>, k: string) {
    forall f <- fields :: Less(k, f.key)
  }

  predicate Sorted(fields: seq<Field>) {
    fields == [] || (KeysAbove(fields[1..], fields[0].key) && Sorted(fields[1..]))
  }

  /** Every object in the tree lists its keys in strictly ascending order. */
  predicate WellFormed(t: Json) {
    match t
    case Atom(_) => true
    case Arr(items) => forall i :: 0 <= i < |items| ==> WellFormed(items[i])
    case Obj(fields) => Sorted(fields) && forall i :: 0 <= i < |fields| ==> WellFormed(fields[i].value)
  }

  // ---- lookup and update of one key -----------------------------------------

  /** dict.get(k) */
  function Get(fields: seq<Field>, k: string): (v: Option<Json>)
    ensures v.Some? ==> exists i :: 0 <= i < |fields| && fields[i] == Field(k, v.value)
  {
    if fields == [] then None
    else if fields[0].key == k then Some(fields[0].value)
    else
      var v := Get(fields[1..], k);
      assert v.Some? ==> exists i :: 0 < i < |fields| && fields[i] == Field(k, v.value) by {
        if v.Some? {
          var i :| 0 <= i < |fields[1..]| && fields[1..][i] == Field(k, v.value);
          assert fields[i + 1] == Field(k, v.value);
        }
      }
      v
  }

  /** Set k to v, or drop it. */
  function Put(fields: seq<Field>, k: string, v: Option<Json>): seq<Field> {
    if fields == [] || Less(k, fields[0].key) then (if v.Some? then [Field(k, v.value)] else []) + fields
    else if fields[0].key == k then (if v.Some? then [Field(k, v.value)] else []) + fields[1..]
    else [fields[0]] + Put(fields[1..], k, v)
  }

  /** A key below all others is not there. */
  lemma {:induction false} GetAbove(fields: seq<Field>, k: string, low: string)
    requires KeysAbove(fields, low) && (k == low || Less(k, low))
    ensures Get(fields, k) == None
  {
    if Get(fields, k).Some? {
      var i :| 0 <= i < |fields| && fields[i] == Field(k, Get(fields, k).value);
      assert fields[i] in fields;
      if k != low {
        LessTransitive(k, low, k);
      }
      LessIrreflexive(k);
    }
  }

  lemma {:induction false} PutAbove(fields: seq<Field>, k: string, v: Option<Json>, low: string)
    requires KeysAbove(fields, low) && Less(low, k)
    ensures KeysAbove(Put(fields, k, v), low)
  {
    if fields != [] {
      assert fields[0] in fields;
      forall f | f in fields[1..] ensures Less(low, f.key) {
        assert f in fields;
      }
      PutAbove(fields[1..], k, v, low);
    }
  }

  lemma {:induction false} AboveHead(fields: seq<Field>, k: string)
    requires Sorted(fields) && fields != [] && Less(k, fields[0].key)
    ensures KeysAbove(fields, k)
  {
    forall f | f in fields ensures Less(k, f.key) {
      if f != fields[0] {
        assert f in fields[1..];
        LessTransitive(k, fields[0].key, f.key);
      }
    }
  }

  lemma {:induction false} PutSorted(fields: seq<Field>, k: string, v: Option<Json>)
    requires Sorted(fields)
    ensures Sorted(Put(fields, k, v))
  {
    if fields != [] {
      if Less(k, fields[0].key) {
        AboveHead(fields, k);
        if v.Some? {
          assert ([Field(k, v.value)] + fields)[1..] == fields;
        } else {
          assert [] + fields == fields;
        }
      } else if fields[0].key == k {
        if v.Some? {
          assert ([Field(k, v.value)] + fields[1..])[1..] == fields[1..];
        } else {
          assert [] + fields[1..] == fields[1..];
        }
      } else {
        LessTotal(k, fields[0].key);
        PutSorted(fields[1..], k, v);
        PutAbove(fields[1..], k, v, fields[0].key);
        assert ([fields[0]] + Put(fields[1..], k, v))[1..] == Put(fields[1..], k, v);
      }
    }
  }

  /** Setting a key is seen at that key and at no other. */
  lemma {:induction false} GetPut(fields: seq<Field>, k: string, v: Option<Json>, k': string)
    requires Sorted(fields)
    ensures Get(Put(fields, k, v), k') == if k' == k then v else Get(fields, k')
  {
    var put := Put(fields, k, v);
    if fields == [] || Less(k, fields[0].key) {
      if fields != [] {
        AboveHead(fields, k);
        if k' == k {
          GetAbove(fields, k, k);
        }
      }
      if v.Some? {
        assert put[1..] == fields;
      } else {
        assert put == fields;
      }
    } else if fields[0].key == k {
      GetAbove(fields[1..], k, k);
      if v.Some? {
        assert put[1..] == fields[1..];
      } else {
        assert put == fields[1..];
      }
    } else {
      GetPut(fields[1..], k, v, k');
      assert put[1..] == Put(fields[1..], k, v);
    }
  }

  /** Sorted lists that answer every lookup alike are the same list. */
  lemma {:induction false} SameLookups(f: seq<Field>, g: seq<Field>)
    requires Sorted(f) && Sorted(g) && forall k :: Get(f, k) == Get(g, k)
    ensures f == g
  {
    assert f != [] ==> Get(f, f[0].key) == Get(g, f[0].key);
    assert g != [] ==> Get(f, g[0].key) == Get(g, g[0].key);
    if f != [] {
      SameHead(f, g);
      forall k ensures Get(f[1..], k) == Get(g[1..], k) {
        GetAbove(f[1..], f[0].key, f[0].key);
        GetAbove(g[1..], f[0].key, f[0].key);
        assert Get(f, k) == Get(g, k);
      }
      SameLookups(f[1..], g[1..]);
      assert f == [f[0]] + f[1..] && g == [g[0]] + g[1..];
    }
  }

  lemma SameHead(f: seq<Field>, g: seq<Field>)
    requires Sorted(f) && Sorted(g) && f != [] && g != [] && forall k :: Get(f, k) == Get(g, k)
    ensures f[0] == g[0]
  {
    assert Get(f, f[0].key) == Get(g, f[0].key) && Get(f, g[0].key) == Get(g, g[0].key);
    LessTotal(f[0].key, g[0].key);
    if Less(f[0].key, g[0].key) {
      AboveHead(g, f[0].key);
      GetAbove(g, f[0].key, f[0].key);
    } else if Less(g[0].key, f[0].key) {
      AboveHead(f, g[0].key);
      GetAbove(f, g[0].key, g[0].key);
    }
  }

  /** Putting back what is there changes nothing. */
  lemma PutGet(fields: seq<Field>, k: string)
    requires Sorted(fields)
    ensures Put(fields, k, Get(fields, k)) == fields
  {
    PutSorted(fields, k, Get(fields, k));
    forall k' ensures Get(Put(fields, k, Get(fields, k)), k') == Get(fields, k') {
      GetPut(fields, k, Get(fields, k), k');
    }
    SameLookups(Put(fields, k, Get(fields, k)), fields);
  }

  /** The later of two updates of a key wins. */
  lemma PutPut(fields: seq<Field>, k: string, v: Option<Json>, w: Option<Json>)
    requires Sorted(fields)
    ensures Put(Put(fields, k, v), k, w) == Put(fields, k, w)
  {
    var once := Put(fields, k, v);
    PutSorted(fields, k, v);
    PutSorted(once, k, w);
    PutSorted(fields, k, w);
    forall k' ensures Get(Put(once, k, w), k') == Get(Put(fields, k, w), k') {
      GetPut(once, k, w, k');
      GetPut(fields, k, v, k');
      GetPut(fields, k, w, k');
    }
    SameLookups(Put(once, k, w), Put(fields, k, w));
  }

  // ---- the keys of two objects together --------------------------------------

  predicate Ascending(ks: seq<string>) {
    ks == [] || ((forall k <- ks[1..] :: Less(ks[0], k)) && Ascending(ks[1..]))
  }

  function KeysOf(fields: seq<Field>): seq<string> {
    seq(|fields|, i requires 0 <= i < |fields| => fields[i].key)
  }

  /** sorted(set(a) | set(b)) of two sorted key lists. */
  function Union(a: seq<string>, b: seq<string>): seq<string> {
    if a == [] then b
    else if b == [] then a
    else if a[0] == b[0] then [a[0]] + Union(a[1..], b[1..])
    else if Less(a[0], b[0]) then [a[0]] + Union(a[1..], b)
    else [b[0]] + Union(a, b[1..])
  }

  lemma HeadAndTail<T>(s: seq<T>, x: T)
    requires s != []
    ensures x in s <==> x == s[0] || x in s[1..]
  {
    assert s == [s[0]] + s[1..];
  }

  lemma Prepend<T>(h: T, s: seq<T>, x: T)
    ensures ([h] + s)[1..] == s
    ensures x in [h] + s <==> x == h || x in s
  {
  }

  lemma {:induction false} UnionMembers(a: seq<string>, b: seq<string>, k: string)
    ensures k in Union(a, b) <==> k in a || k in b
  {
    if a != [] && b != [] {
      HeadAndTail(a, k);
      HeadAndTail(b, k);
      if a[0] == b[0] {
        UnionMembers(a[1..], b[1..], k);
        Prepend(a[0], Union(a[1..], b[1..]), k);
      } else if Less(a[0], b[0]) {
        UnionMembers(a[1..], b, k);
        Prepend(a[0], Union(a[1..], b), k);
      } else {
        UnionMembers(a, b[1..], k);
        Prepend(b[0], Union(a, b[1..]), k);
      }
    }
  }

  lemma {:induction false} UnionAscending(a: seq<string>, b: seq<string>)
    requires Ascending(a) && Ascending(b)
    ensures Ascending(Union(a, b))
  {
    if a != [] && b != [] {
      LessTotal(a[0], b[0]);
      if a[0] == b[0] {
        UnionAscending(a[1..], b[1..]);
        ConsAscending(a[0], a[1..], b[1..]);
      } else if Less(a[0], b[0]) {
        UnionAscending(a[1..], b);
        AboveFirst(a[0], b);
        ConsAscending(a[0], a[1..], b);
      } else {
        UnionAscending(a, b[1..]);
        AboveFirst(b[0], a);
        ConsAscending(b[0], a, b[1..]);
      }
    }
  }

  lemma AboveFirst(h: string, b: seq<string>)
    requires Ascending(b) && b != [] && Less(h, b[0])
    ensures forall k <- b :: Less(h, k)
  {
    forall k | k in b ensures Less(h, k) {
      HeadAndTail(b, k);
      if k != b[0] {
        LessTransitive(h, b[0], k);
      }
    }
  }

  lemma ConsAscending(h: string, a: seq<string>, b: seq<string>)
    requires (forall k <- a :: Less(h, k)) && (forall k <- b :: Less(h, k)) && Ascending(Union(a, b))
    ensures Ascending([h] + Union(a, b))
  {
    var u := Union(a, b);
    assert ([h] + u)[1..] == u;
    forall k | k in u ensures Less(h, k) {
      UnionMembers(a, b, k);
    }
  }

  lemma {:induction false} KeysAscending(fields: seq<Field>)
    requires Sorted(fields)
    ensures Ascending(KeysOf(fields))
  {
    if fields != [] {
      KeysAscending(fields[1..]);
      assert KeysOf(fields)[1..] == KeysOf(fields[1..]);
      forall k | k in KeysOf(fields[1..]) ensures Less(fields[0].key, k) {
        var i :| 0 <= i < |fields[1..]| && KeysOf(fields[1..])[i] == k;
        assert fields[1..][i] in fields[1..];
      }
    }
  }

  /** The keys are those under which a lookup finds something. */
  lemma {:induction false} KeysFound(fields: seq<Field>, k: string)
    ensures k in KeysOf(fields) <==> Get(fields, k).Some?
  {
    if fields != [] {
      KeysFound(fields[1..], k);
      HeadAndTail(KeysOf(fields), k);
      assert KeysOf(fields)[1..] == KeysOf(fields[1..]);
    }
  }

  /** The keys the diff visits: every key of either object, each once, in order. */
  function SortedKeys(r: seq<Field>, d: seq<Field>): seq<string> {
    Union(KeysOf(r), KeysOf(d))
  }

  lemma SortedKeysExact(r: seq<Field>, d: seq<Field>)
    requires Sorted(r) && Sorted(d)
    ensures Ascending(SortedKeys(r, d))
    ensures forall k :: k in SortedKeys(r, d) <==> Get(r, k).Some? || Get(d, k).Some?
  {
    KeysAscending(r);
    KeysAscending(d);
    UnionAscending(KeysOf(r), KeysOf(d));
    forall k ensures k in SortedKeys(r, d) <==> Get(r, k).Some? || Get(d, k).Some? {
      UnionMembers(KeysOf(r), KeysOf(d), k);
      KeysFound(r, k);
      KeysFound(d, k);
    }
  }
}
