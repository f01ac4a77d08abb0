// The two parsers move the cursor alike on any bytes, and both recover what a
// well-formed header encodes.
module GgufRoundTrip {
  import opened LittleEndian
  import opened GgufFormat
  import opened GgufParse

  // ---- cursor agreement, on any bytes ---------------------------------------

  /**
   * Whatever the bytes: where the building parser gets through, the skipping
   * parser gets through and stops at the same offset, arrays nested to any depth.
   */
  lemma {:induction false} SkipFollowsRead(data: Bytes, pos: nat, vtype: nat, keep: nat)
    requires pos <= |data|
    ensures var r := ReadValue(data, pos, vtype, keep); r.Ok? ==> SkipValue(data, pos, vtype) == Ok((), r.pos)
    decreases |data| - pos, 0, 0
  {
    if vtype == ARRAY && ReadValue(data, pos, vtype, keep).Ok? {
      var etype, count, p := NumberAt(data, pos, 4), NumberAt(data, pos + 4, 8), pos + 12;
      if ScalarSize(etype) > 0 {
        ScalarItemsSkip(data, p, etype, keep, count, 0, []);
      } else if etype == STRING {
        TextItemsSkip(data, p, keep, count, 0, []);
      } else {
        ItemsSkip(data, p, etype, keep, count, 0, []);
      }
    }
  }

  lemma {:induction false} ScalarItemsSkip(
      data: Bytes, pos: nat, etype: nat, keep: nat, count: nat, i: nat, items: seq<Value>)
    requires pos <= |data| && i <= count && ScalarSize(etype) > 0
    ensures var r := ReadItems(data, pos, etype, keep, count, i, items);
      r.Ok? ==> r.pos == pos + ScalarSize(etype) * (count - i) <= |data|
    decreases count - i
  {
    if i < count {
      match ReadValue(data, pos, etype, keep)
      case Bad =>
      case Ok(v, p) =>
        ScalarItemsSkip(data, p, etype, keep, count, i + 1, if i < keep then items + [v] else items);
        assert ScalarSize(etype) * (count - i) == ScalarSize(etype) + ScalarSize(etype) * (count - (i + 1));
    }
  }

  lemma {:induction false} TextItemsSkip(data: Bytes, pos: nat, keep: nat, count: nat, i: nat, items: seq<Value>)
    requires pos <= |data| && i <= count
    ensures var r := ReadItems(data, pos, STRING, keep, count, i, items);
      r.Ok? ==> SkipTexts(data, pos, count - i) == Ok((), r.pos)
    decreases count - i
  {
    if i < count {
      match ReadValue(data, pos, STRING, keep)
      case Bad =>
      case Ok(v, p) =>
        TextItemsSkip(data, p, keep, count, i + 1, if i < keep then items + [v] else items);
    }
  }

  lemma {:induction false} ItemsSkip(
      data: Bytes, pos: nat, etype: nat, keep: nat, count: nat, i: nat, items: seq<Value>)
    requires pos <= |data| && i <= count
    ensures var r := ReadItems(data, pos, etype, keep, count, i, items);
      r.Ok? ==> SkipValues(data, pos, etype, count - i) == Ok((), r.pos)
    decreases |data| - pos, 1, count - i
  {
    if i < count {
      SkipFollowsRead(data, pos, etype, keep);
      match ReadValue(data, pos, etype, keep)
      case Bad =>
      case Ok(v, p) =>
        ItemsSkip(data, p, etype, keep, count, i + 1, if i < keep then items + [v] else items);
    }
  }

  /** How much the caller keeps never moves the cursor, nor decides whether there is a result. */
  lemma {:induction false} KeepMovesNothing(data: Bytes, pos: nat, vtype: nat, k: nat, l: nat)
    requires pos <= |data|
    ensures var a, b := ReadValue(data, pos, vtype, k), ReadValue(data, pos, vtype, l);
      a.Ok? == b.Ok? && (a.Ok? ==> a.pos == b.pos)
    decreases |data| - pos, 0, 0
  {
    if ScalarSize(vtype) == 0 && vtype == ARRAY && pos + 12 <= |data| {
      var etype, count := NumberAt(data, pos, 4), NumberAt(data, pos + 4, 8);
      KeepMovesNoItem(data, pos + 12, etype, k, l, count, 0, [], []);
    }
  }

  lemma {:induction false} KeepMovesNoItem(data: Bytes, pos: nat, etype: nat, k: nat, l: nat, count: nat, i: nat,
                                           x: seq<Value>, y: seq<Value>)
    requires pos <= |data| && i <= count
    ensures var a, b := ReadItems(data, pos, etype, k, count, i, x), ReadItems(data, pos, etype, l, count, i, y);
      a.Ok? == b.Ok? && (a.Ok? ==> a.pos == b.pos)
    decreases |data| - pos, 1, count - i
  {
    if i < count {
      KeepMovesNothing(data, pos, etype, k, l);
      var a, b := ReadValue(data, pos, etype, k), ReadValue(data, pos, etype, l);
      if a.Ok? {
        KeepMovesNoItem(data, a.pos, etype, k, l, count, i + 1,
                        if i < k then x + [a.value] else x, if i < l then y + [b.value] else y);
      }
    }
  }

  // ---- encoded bytes at a position ------------------------------------------

  ghost predicate At(data: Bytes, pos: nat, b: Bytes) {
    pos + |b| <= |data| && data[pos..pos + |b|] == b
  }

  lemma AtSplit(data: Bytes, pos: nat, a: Bytes, b: Bytes)
    requires At(data, pos, a + b)
    ensures At(data, pos, a) && At(data, pos + |a|, b)
  {
    var s := data[pos..pos + |a + b|];
    assert data[pos..pos + |a|] == s[..|a|] == a;
    assert data[pos + |a|..pos + |a + b|] == s[|a|..] == b;
  }

  lemma AtConcat(data: Bytes, pos: nat, whole: Bytes, a: Bytes, b: Bytes, q: nat)
    requires whole == a + b && At(data, pos, whole) && q == pos + |a|
    ensures At(data, pos, a) && At(data, q, b) && q + |b| == pos + |whole|
  {
    AtSplit(data, pos, a, b);
  }

  /** The number n bytes spell, where the digits of v are. */
  lemma NumberThere(data: Bytes, pos: nat, v: nat, n: nat)
    requires (n == 4 && v < U32_LIMIT) || (n == 8 && v < U64_LIMIT)
    requires At(data, pos, Digits(v, n))
    ensures ReadNumber(data, pos, n) == Ok(v, pos + n)
  {
    Powers();
    DigitsSpell(v, n);
  }

  lemma HeadAndTail<T>(s: seq<T>)
    requires s != []
    ensures s[0] in s && forall x <- s[1..] :: x in s
    ensures forall x <- s :: x == s[0] || x in s[1..]
  {
  }

  lemma TextThere(data: Bytes, pos: nat, s: Bytes)
    requires |s| < U64_LIMIT && At(data, pos, EncodeText(s))
    ensures ReadText(data, pos) == Ok(s, pos + |EncodeText(s)|)
  {
    AtSplit(data, pos, Digits(|s|, 8), s);
    NumberThere(data, pos, |s|, 8);
  }

  // ---- values round-trip ----------------------------------------------------

  /** What the value reader keeps of a tree. */
  function Kept(t: Tree, keep: nat): Value
    decreases t, 1
  {
    match t
    case Scalar(vtype, raw) => Raw(vtype, raw)
    case Text(raw) => Chars(raw)
    case Array(_, elems) => if |elems| <= keep then List(KeptFrom(elems, keep, 0)) else Length(|elems|)
  }

  function KeptFrom(elems: seq<Tree>, keep: nat, i: nat): seq<Value>
    decreases elems, 0
  {
    if elems == [] then []
    else (if i < keep then [Kept(elems[0], keep)] else []) + KeptFrom(elems[1..], keep, i + 1)
  }

  lemma Joined<T>(a: seq<T>, b: seq<T>, c: seq<T>)
    ensures a + b + c == a + (b + c)
    ensures b == [] ==> a + b == a
  {
  }

  /** Reading an encoded value yields it, and stops right behind it. */
  lemma {:induction false} ValueRoundTrip(data: Bytes, pos: nat, t: Tree, keep: nat)
    requires WellFormed(t) && At(data, pos, Encode(t))
    ensures ReadValue(data, pos, TypeOf(t), keep) == Ok(Kept(t, keep), pos + |Encode(t)|)
    decreases t, 1
  {
    match t
    case Scalar(_, _) =>
    case Text(raw) =>
      TextThere(data, pos, raw);
    case Array(etype, elems) =>
      ArrayThere(data, pos, etype, elems);
      ItemsRoundTrip(data, pos + 12, etype, elems, keep, |elems|, 0, []);
      assert [] + KeptFrom(elems, keep, 0) == KeptFrom(elems, keep, 0);
      ArrayRead(data, pos, etype, elems, keep, pos + |Encode(t)|);
  }

  /** Where an array's element type and count are. */
  lemma ArrayStart(data: Bytes, pos: nat, etype: nat, n: nat)
    requires etype < U32_LIMIT && n < U64_LIMIT && At(data, pos, Digits(etype, 4) + Digits(n, 8))
    ensures ReadNumber(data, pos, 4) == Ok(etype, pos + 4) && ReadNumber(data, pos + 4, 8) == Ok(n, pos + 12)
    ensures pos + 12 <= |data|
  {
    AtSplit(data, pos, Digits(etype, 4), Digits(n, 8));
    NumberThere(data, pos, etype, 4);
    NumberThere(data, pos + 4, n, 8);
  }

  /** And where its elements are. */
  lemma ArrayThere(data: Bytes, pos: nat, etype: nat, elems: seq<Tree>)
    requires etype < U32_LIMIT && |elems| < U64_LIMIT && At(data, pos, Encode(Array(etype, elems)))
    ensures ReadNumber(data, pos, 4) == Ok(etype, pos + 4) && ReadNumber(data, pos + 4, 8) == Ok(|elems|, pos + 12)
    ensures At(data, pos + 12, EncodeAll(elems)) && pos + 12 + |EncodeAll(elems)| == pos + |Encode(Array(etype, elems))|
  {
    AtSplit(data, pos, Digits(etype, 4) + Digits(|elems|, 8), EncodeAll(elems));
    ArrayStart(data, pos, etype, |elems|);
  }

  lemma ArrayRead(data: Bytes, pos: nat, etype: nat, elems: seq<Tree>, keep: nat, end: nat)
    requires pos + 12 <= |data| && ReadNumber(data, pos, 4) == Ok(etype, pos + 4)
    requires ReadNumber(data, pos + 4, 8) == Ok(|elems|, pos + 12)
    requires ReadItems(data, pos + 12, etype, keep, |elems|, 0, []) == Ok(KeptFrom(elems, keep, 0), end)
    ensures ReadValue(data, pos, ARRAY, keep) == Ok(Kept(Array(etype, elems), keep), end)
  {
  }

  lemma ItemStep(data: Bytes, pos: nat, etype: nat, keep: nat, count: nat, i: nat, items: seq<Value>, v: Value, q: nat)
    requires i < count && pos <= |data| && ReadValue(data, pos, etype, keep) == Ok(v, q)
    ensures q <= |data|
    ensures ReadItems(data, pos, etype, keep, count, i, items)
         == ReadItems(data, q, etype, keep, count, i + 1, if i < keep then items + [v] else items)
  {
  }

  lemma {:induction false} ItemsRoundTrip(data: Bytes, pos: nat, etype: nat, elems: seq<Tree>, keep: nat,
                                          count: nat, i: nat, items: seq<Value>)
    requires count == i + |elems| && At(data, pos, EncodeAll(elems))
    requires forall e <- elems :: TypeOf(e) == etype && WellFormed(e)
    ensures ReadItems(data, pos, etype, keep, count, i, items)
         == Ok(items + KeptFrom(elems, keep, i), pos + |EncodeAll(elems)|)
    decreases elems, 0
  {
    if elems == [] {
      assert items + [] == items;
    } else {
      var e, rest := elems[0], elems[1..];
      var q := pos + |Encode(e)|;
      assert At(data, pos, Encode(e)) && At(data, q, EncodeAll(rest))
          && q + |EncodeAll(rest)| == pos + |EncodeAll(elems)| by {
        HeadAndTail(elems);
        AtSplit(data, pos, Encode(e), EncodeAll(rest));
      }
      var next := if i < keep then items + [Kept(e, keep)] else items;
      assert ReadItems(data, pos, etype, keep, count, i, items)
          == ReadItems(data, q, etype, keep, count, i + 1, next) by {
        ValueRoundTrip(data, pos, e, keep);
        ItemStep(data, pos, etype, keep, count, i, items, Kept(e, keep), q);
      }
      assert ReadItems(data, q, etype, keep, count, i + 1, next)
          == Ok(next + KeptFrom(rest, keep, i + 1), q + |EncodeAll(rest)|) by {
        ItemsRoundTrip(data, q, etype, rest, keep, count, i + 1, next);
      }
      Joined(items, if i < keep then [Kept(e, keep)] else [], KeptFrom(rest, keep, i + 1));
    }
  }

  /** Both parsers stop right behind an encoded value, whatever is kept. */
  lemma CursorsAgree(data: Bytes, pos: nat, t: Tree, keep: nat)
    requires WellFormed(t) && At(data, pos, Encode(t))
    ensures var r := ReadValue(data, pos, TypeOf(t), keep);
      r.Ok? && r.pos == pos + |Encode(t)| && SkipValue(data, pos, TypeOf(t)) == Ok((), r.pos)
  {
    ValueRoundTrip(data, pos, t, keep);
    SkipFollowsRead(data, pos, TypeOf(t), keep);
  }

  // ---- headers round-trip ---------------------------------------------------

  lemma TypesAreSmall(t: Tree)
    requires WellFormed(t)
    ensures TypeOf(t) < U32_LIMIT
  {
    Powers();
  }

  lemma EntryThere(data: Bytes, pos: nat, e: Entry)
    requires WellFormedEntry(e) && At(data, pos, EncodeEntry(e))
    ensures var p := pos + |EncodeText(e.key)|;
      && ReadText(data, pos) == Ok(e.key, p)
      && ReadNumber(data, p, 4) == Ok(TypeOf(e.value), p + 4)
      && At(data, p + 4, Encode(e.value)) && p + 4 + |Encode(e.value)| == pos + |EncodeEntry(e)|
  {
    var k, d, v := EncodeText(e.key), Digits(TypeOf(e.value), 4), Encode(e.value);
    AtSplit(data, pos, k + d, v);
    AtSplit(data, pos, k, d);
    TextThere(data, pos, e.key);
    TypesAreSmall(e.value);
    NumberThere(data, pos + |k|, TypeOf(e.value), 4);
  }

  lemma EntrySkipped(data: Bytes, pos: nat, e: Entry, q: nat)
    requires WellFormedEntry(e) && At(data, pos, EncodeEntry(e)) && q == pos + |EncodeEntry(e)|
    ensures SkipEntry(data, pos) == Ok((), q)
  {
    var p, t := pos + |EncodeText(e.key)|, TypeOf(e.value);
    assert ReadText(data, pos) == Ok(e.key, p) && ReadNumber(data, p, 4) == Ok(t, p + 4) && p + 4 <= |data| by {
      EntryThere(data, pos, e);
    }
    assert SkipValue(data, p + 4, t) == Ok((), q) by {
      EntryThere(data, pos, e);
      CursorsAgree(data, p + 4, e.value, 0);
    }
    SkipParts(data, pos, e.key, p, t, Ok((), q));
  }

  lemma SkipParts(data: Bytes, pos: nat, key: Bytes, p: nat, vtype: nat, r: Parsed<()>)
    requires pos <= |data| && ReadText(data, pos) == Ok(key, p) && ReadNumber(data, p, 4) == Ok(vtype, p + 4)
    requires p + 4 <= |data| && SkipValue(data, p + 4, vtype) == r
    ensures SkipEntry(data, pos) == r
  {
  }

  lemma SkipOne(data: Bytes, pos: nat, count: nat, q: nat)
    requires pos <= |data| && q <= |data| && count > 0 && SkipEntry(data, pos) == Ok((), q)
    ensures SkipEntries(data, pos, count) == SkipEntries(data, q, count - 1)
  {
  }

  lemma {:induction false} EntriesSkipped(data: Bytes, pos: nat, entries: seq<Entry>, end: nat)
    requires (forall e <- entries :: WellFormedEntry(e)) && At(data, pos, EncodeMetadata(entries))
    requires end == pos + |EncodeMetadata(entries)|
    ensures SkipEntries(data, pos, |entries|) == Ok((), end)
    decreases |entries|
  {
    if entries != [] {
      var e, rest := entries[0], entries[1..];
      HeadAndTail(entries);
      var q := pos + |EncodeEntry(e)|;
      FirstEntryAt(data, pos, entries, q);
      assert SkipEntries(data, pos, |entries|) == SkipEntries(data, q, |rest|) by {
        EntrySkipped(data, pos, e, q);
        SkipOne(data, pos, |entries|, q);
      }
      assert SkipEntries(data, q, |rest|) == Ok((), end) by {
        EntriesSkipped(data, q, rest, end);
      }
    }
  }

  lemma {:induction false} DimsThere(data: Bytes, pos: nat, dims: seq<nat>)
    requires (forall d <- dims :: d < U64_LIMIT) && At(data, pos, EncodeDims(dims))
    ensures DimsAt(data, pos, |dims|) == dims
    decreases |dims|
  {
    if dims != [] {
      HeadAndTail(dims);
      AtSplit(data, pos, Digits(dims[0], 8), EncodeDims(dims[1..]));
      NumberThere(data, pos, dims[0], 8);
      DimsThere(data, pos + 8, dims[1..]);
      var got, tail := DimsAt(data, pos, |dims|), DimsAt(data, pos + 8, |dims| - 1);
      forall i | 0 <= i < |dims| ensures got[i] == dims[i] {
        if i > 0 {
          assert got[i] == tail[i - 1] == dims[1..][i - 1];
        }
      }
    }
  }

  lemma TensorParts(data: Bytes, pos: nat, t: TensorInfo)
    requires At(data, pos, EncodeTensor(t))
    ensures var p := pos + |EncodeText(t.name)|; var pd := p + 4 + 8 * |t.dims|;
      && At(data, pos, EncodeText(t.name)) && At(data, p, Digits(|t.dims|, 4)) && At(data, p + 4, EncodeDims(t.dims))
      && At(data, pd, Digits(t.ggufType, 4)) && At(data, pd + 4, Digits(t.offset, 8))
      && pd + 12 == pos + |EncodeTensor(t)|
  {
    var n, d, ds := EncodeText(t.name), Digits(|t.dims|, 4), EncodeDims(t.dims);
    var g, o := Digits(t.ggufType, 4), Digits(t.offset, 8);
    AtSplit(data, pos, n + d + ds + g, o);
    AtSplit(data, pos, n + d + ds, g);
    AtSplit(data, pos, n + d, ds);
    AtSplit(data, pos, n, d);
  }

  lemma ReadParts(data: Bytes, pos: nat, t: TensorInfo, p: nat, pd: nat)
    requires pos <= |data| && ReadText(data, pos) == Ok(t.name, p) && ReadNumber(data, p, 4) == Ok(|t.dims|, p + 4)
    requires pd == p + 4 + 8 * |t.dims| <= |data| && DimsAt(data, p + 4, |t.dims|) == t.dims
    requires ReadNumber(data, pd, 4) == Ok(t.ggufType, pd + 4) && ReadNumber(data, pd + 4, 8) == Ok(t.offset, pd + 12)
    ensures ReadTensor(data, pos) == Ok(t, pd + 12)
  {
  }

  lemma TensorThere(data: Bytes, pos: nat, t: TensorInfo)
    requires WellFormedTensor(t) && At(data, pos, EncodeTensor(t))
    ensures ReadTensor(data, pos) == Ok(t, pos + |EncodeTensor(t)|) && pos + |EncodeTensor(t)| <= |data|
  {
    var p := pos + |EncodeText(t.name)|;
    var pd := p + 4 + 8 * |t.dims|;
    TensorParts(data, pos, t);
    assert ReadText(data, pos) == Ok(t.name, p) by {
      TextThere(data, pos, t.name);
    }
    assert ReadNumber(data, p, 4) == Ok(|t.dims|, p + 4) by {
      NumberThere(data, p, |t.dims|, 4);
    }
    assert DimsAt(data, p + 4, |t.dims|) == t.dims by {
      DimsThere(data, p + 4, t.dims);
    }
    assert ReadNumber(data, pd, 4) == Ok(t.ggufType, pd + 4) by {
      NumberThere(data, pd, t.ggufType, 4);
    }
    assert ReadNumber(data, pd + 4, 8) == Ok(t.offset, pd + 12) by {
      NumberThere(data, pd + 4, t.offset, 8);
    }
    ReadParts(data, pos, t, p, pd);
  }

  lemma TensorStep(data: Bytes, pos: nat, t: TensorInfo, count: nat, infos: seq<TensorInfo>, q: nat)
    requires WellFormedTensor(t) && At(data, pos, EncodeTensor(t)) && count > 0 && q == pos + |EncodeTensor(t)|
    ensures ReadTensors(data, pos, count, infos) == ReadTensors(data, q, count - 1, infos + [t])
  {
    assert ReadTensors(data, pos, count, infos) == ReadTensors(data, q, count - 1, infos + [t]) by {
      TensorThere(data, pos, t);
      ReadOneTensor(data, pos, count, infos, t, q);
    }
  }

  lemma ReadOneTensor(data: Bytes, pos: nat, count: nat, infos: seq<TensorInfo>, t: TensorInfo, q: nat)
    requires pos <= |data| && q <= |data| && count > 0 && ReadTensor(data, pos) == Ok(t, q)
    ensures ReadTensors(data, pos, count, infos) == ReadTensors(data, q, count - 1, infos + [t])
  {
  }

  lemma FirstTensorAt(data: Bytes, pos: nat, tensors: seq<TensorInfo>, q: nat)
    requires tensors != [] && At(data, pos, EncodeTensors(tensors)) && q == pos + |EncodeTensor(tensors[0])|
    ensures At(data, pos, EncodeTensor(tensors[0])) && At(data, q, EncodeTensors(tensors[1..]))
    ensures q + |EncodeTensors(tensors[1..])| == pos + |EncodeTensors(tensors)|
  {
    AtConcat(data, pos, EncodeTensors(tensors), EncodeTensor(tensors[0]), EncodeTensors(tensors[1..]), q);
  }

  lemma {:induction false} TensorsThere(data: Bytes, pos: nat, tensors: seq<TensorInfo>, infos: seq<TensorInfo>,
                                        all: seq<TensorInfo>, end: nat)
    requires (forall t <- tensors :: WellFormedTensor(t)) && At(data, pos, EncodeTensors(tensors))
    requires all == infos + tensors && end == pos + |EncodeTensors(tensors)|
    ensures ReadTensors(data, pos, |tensors|, infos) == Ok(all, end)
    decreases |tensors|
  {
    if tensors == [] {
      assert all == infos;
    } else {
      var t, rest := tensors[0], tensors[1..];
      var q := pos + |EncodeTensor(t)|;
      HeadAndTail(tensors);
      FirstTensorAt(data, pos, tensors, q);
      assert all == infos + [t] + rest by {
        assert [t] + rest == tensors;
        Joined(infos, [t], rest);
      }
      assert ReadTensors(data, pos, |tensors|, infos) == ReadTensors(data, q, |rest|, infos + [t]) by {
        TensorStep(data, pos, t, |tensors|, infos, q);
      }
      assert ReadTensors(data, q, |rest|, infos + [t]) == Ok(all, end) by {
        TensorsThere(data, q, rest, infos + [t], all, end);
      }
    }
  }

  /** Magic, version and the two counts: the first 24 bytes. */
  function Preamble(h: Header): (b: Bytes)
    ensures |b| == 24
  {
    MAGIC + Digits(h.version, 4) + Digits(|h.tensors|, 8) + Digits(|h.metadata|, 8)
  }

  lemma PreambleAlone(data: Bytes, h: Header)
    requires WellFormedHeader(h) && At(data, 0, Preamble(h))
    ensures ReadPreamble(data) == Ok(Counts(|h.tensors|, |h.metadata|), 24)
  {
    var v, t, m := Digits(h.version, 4), Digits(|h.tensors|, 8), Digits(|h.metadata|, 8);
    AtSplit(data, 0, MAGIC + v + t, m);
    AtSplit(data, 0, MAGIC + v, t);
    AtSplit(data, 0, MAGIC, v);
    NumberThere(data, 4, h.version, 4);
    NumberThere(data, 8, |h.tensors|, 8);
    NumberThere(data, 16, |h.metadata|, 8);
  }

  lemma PreambleThere(data: Bytes, h: Header)
    requires WellFormedHeader(h) && At(data, 0, EncodeHeader(h))
    ensures ReadPreamble(data) == Ok(Counts(|h.tensors|, |h.metadata|), 24)
    ensures At(data, 24, EncodeMetadata(h.metadata))
    ensures At(data, 24 + |EncodeMetadata(h.metadata)|, EncodeTensors(h.tensors))
  {
    var es, ts := EncodeMetadata(h.metadata), EncodeTensors(h.tensors);
    AtSplit(data, 0, Preamble(h) + es, ts);
    AtSplit(data, 0, Preamble(h), es);
    PreambleAlone(data, h);
  }

  lemma ThreeStages(data: Bytes, c: Counts, q: nat, infos: seq<TensorInfo>, end: nat)
    requires ReadPreamble(data) == Ok(c, 24) && SkipEntries(data, 24, c.entries) == Ok((), q)
    requires 24 <= |data| && q <= |data| && ReadTensors(data, q, c.tensors, []) == Ok(infos, end)
    ensures ReadTensorInfos(data) == Ok(infos, end)
  {
  }

  /** read_tensor_infos of an encoded header, whatever follows it, is exactly the encoded descriptors. */
  lemma TensorInfosRoundTrip(h: Header, rest: Bytes)
    requires WellFormedHeader(h)
    ensures ReadTensorInfos(EncodeHeader(h) + rest) == Ok(h.tensors, |EncodeHeader(h)|)
  {
    var data := EncodeHeader(h) + rest;
    TensorInfosThere(data, h, |EncodeHeader(h)|);
  }

  lemma TensorInfosThere(data: Bytes, h: Header, end: nat)
    requires WellFormedHeader(h) && At(data, 0, EncodeHeader(h)) && end == |EncodeHeader(h)|
    ensures ReadTensorInfos(data) == Ok(h.tensors, end)
  {
    var q := 24 + |EncodeMetadata(h.metadata)|;
    assert end == q + |EncodeTensors(h.tensors)|;
    PreambleThere(data, h);
    assert SkipEntries(data, 24, |h.metadata|) == Ok((), q) by {
      EntriesSkipped(data, 24, h.metadata, q);
    }
    assert ReadTensors(data, q, |h.tensors|, []) == Ok(h.tensors, end) by {
      assert [] + h.tensors == h.tensors;
      TensorsThere(data, q, h.tensors, [], h.tensors, end);
    }
    ThreeStages(data, Counts(|h.tensors|, |h.metadata|), q, h.tensors, end);
  }

  // ---- metadata -------------------------------------------------------------

  /** Tokenizer arrays are skipped by a loop that knows no nested arrays. */
  predicate Readable(e: Entry) {
    TOKENIZER <= e.key && e.value.Array? ==>
      ScalarSize(e.value.etype) > 0 || e.value.etype == STRING || e.value.elems == []
  }

  function KeptEntry(e: Entry, keep: nat): Value {
    if TOKENIZER <= e.key && e.value.Array? then Length(|e.value.elems|) else Kept(e.value, keep)
  }

  function KeptEntries(entries: seq<Entry>, keep: nat, out: map<Bytes, Value>): map<Bytes, Value> {
    if entries == [] then out else KeptEntries(entries[1..], keep, out[entries[0].key := KeptEntry(entries[0], keep)])
  }

  lemma ElemStep(data: Bytes, pos: nat, etype: nat, e: Tree, count: nat, q: nat)
    requires TypeOf(e) == etype && WellFormed(e) && At(data, pos, Encode(e)) && count > 0
    requires (ScalarSize(etype) > 0 || etype == STRING) && q == pos + |Encode(e)|
    ensures SkipElems(data, pos, etype, count) == SkipElems(data, q, etype, count - 1)
  {
    if e.Text? {
      assert ReadText(data, pos) == Ok(e.raw, q) && q <= |data| by {
        TextThere(data, pos, e.raw);
      }
    } else {
      assert ScalarSize(etype) > 0 && Past(data, pos, ScalarSize(etype)) == q;
    }
  }

  lemma {:induction false} ElemsSkipped(data: Bytes, pos: nat, etype: nat, elems: seq<Tree>, end: nat)
    requires (forall e <- elems :: TypeOf(e) == etype && WellFormed(e)) && At(data, pos, EncodeAll(elems))
    requires (ScalarSize(etype) > 0 || etype == STRING) && end == pos + |EncodeAll(elems)|
    ensures SkipElems(data, pos, etype, |elems|) == Ok((), end)
    decreases |elems|
  {
    if elems != [] {
      var e, rest := elems[0], elems[1..];
      HeadAndTail(elems);
      var q := pos + |Encode(e)|;
      assert At(data, pos, Encode(e)) && At(data, q, EncodeAll(rest)) && end == q + |EncodeAll(rest)| by {
        AtSplit(data, pos, Encode(e), EncodeAll(rest));
      }
      assert SkipElems(data, pos, etype, |elems|) == SkipElems(data, q, etype, |rest|) by {
        ElemStep(data, pos, etype, e, |elems|, q);
      }
      assert SkipElems(data, q, etype, |rest|) == Ok((), end) by {
        ElemsSkipped(data, q, etype, rest, end);
      }
    }
  }

  lemma EntryValueThere(data: Bytes, pos: nat, e: Entry, keep: nat)
    requires WellFormedEntry(e) && At(data, pos, Encode(e.value))
    ensures ReadEntryValue(data, pos, e.key, TypeOf(e.value), keep)
         == if Readable(e) then Ok(KeptEntry(e, keep), pos + |Encode(e.value)|) else Bad
  {
    if TOKENIZER <= e.key && e.value.Array? {
      var etype, elems := e.value.etype, e.value.elems;
      AtSplit(data, pos, Digits(etype, 4) + Digits(|elems|, 8), EncodeAll(elems));
      AtSplit(data, pos, Digits(etype, 4), Digits(|elems|, 8));
      NumberThere(data, pos, etype, 4);
      NumberThere(data, pos + 4, |elems|, 8);
      if ScalarSize(etype) > 0 || etype == STRING {
        ElemsSkipped(data, pos + 12, etype, elems, pos + 12 + |EncodeAll(elems)|);
      }
    } else {
      assert TypeOf(e.value) == ARRAY ==> e.value.Array? by {
        assert ScalarSize(ARRAY) == 0;
      }
      ValueRoundTrip(data, pos, e.value, keep);
    }
  }

  lemma EntryValueRead(data: Bytes, pos: nat, e: Entry, keep: nat, p: nat, q: nat)
    requires WellFormedEntry(e) && At(data, pos, EncodeEntry(e))
    requires p == pos + |EncodeText(e.key)| && q == pos + |EncodeEntry(e)|
    ensures p + 4 <= |data|
    ensures ReadEntryValue(data, p + 4, e.key, TypeOf(e.value), keep)
         == if Readable(e) then Ok(KeptEntry(e, keep), q) else Bad
  {
    EntryThere(data, pos, e);
    EntryValueThere(data, p + 4, e, keep);
  }

  lemma EntryRead(data: Bytes, pos: nat, e: Entry, keep: nat, q: nat)
    requires WellFormedEntry(e) && At(data, pos, EncodeEntry(e)) && q == pos + |EncodeEntry(e)|
    ensures ReadEntry(data, pos, keep) == if Readable(e) then Ok((e.key, KeptEntry(e, keep)), q) else Bad
  {
    var p, t := pos + |EncodeText(e.key)|, TypeOf(e.value);
    EntryValueRead(data, pos, e, keep, p, q);
    var r := ReadEntryValue(data, p + 4, e.key, t, keep);
    assert ReadEntry(data, pos, keep) == if r.Ok? then Ok((e.key, r.value), r.pos) else Bad by {
      EntryThere(data, pos, e);
      ReadEntryParts(data, pos, keep, e.key, p, t, r);
    }
  }

  lemma ReadEntryParts(data: Bytes, pos: nat, keep: nat, key: Bytes, p: nat, vtype: nat, r: Parsed<Value>)
    requires pos <= |data| && ReadText(data, pos) == Ok(key, p) && ReadNumber(data, p, 4) == Ok(vtype, p + 4)
    requires p + 4 <= |data| && ReadEntryValue(data, p + 4, key, vtype, keep) == r
    ensures ReadEntry(data, pos, keep) == if r.Ok? then Ok((key, r.value), r.pos) else Bad
  {
  }

  lemma ReadOne(data: Bytes, pos: nat, count: nat, keep: nat, out: map<Bytes, Value>, key: Bytes, v: Value, q: nat)
    requires pos <= |data| && q <= |data| && count > 0 && ReadEntry(data, pos, keep) == Ok((key, v), q)
    ensures ReadEntries(data, pos, count, keep, out) == ReadEntries(data, q, count - 1, keep, out[key := v])
  {
  }

  lemma FirstEntryAt(data: Bytes, pos: nat, entries: seq<Entry>, q: nat)
    requires entries != [] && At(data, pos, EncodeMetadata(entries)) && q == pos + |EncodeEntry(entries[0])|
    ensures At(data, pos, EncodeEntry(entries[0])) && At(data, q, EncodeMetadata(entries[1..]))
    ensures q + |EncodeMetadata(entries[1..])| == pos + |EncodeMetadata(entries)|
  {
    AtConcat(data, pos, EncodeMetadata(entries), EncodeEntry(entries[0]), EncodeMetadata(entries[1..]), q);
  }

  lemma {:induction false} EntriesThere(
      data: Bytes, pos: nat, entries: seq<Entry>, keep: nat, out: map<Bytes, Value>, end: nat)
    requires (forall e <- entries :: WellFormedEntry(e) && Readable(e)) && At(data, pos, EncodeMetadata(entries))
    requires end == pos + |EncodeMetadata(entries)|
    ensures ReadEntries(data, pos, |entries|, keep, out) == Ok(KeptEntries(entries, keep, out), end)
    decreases |entries|
  {
    if entries != [] {
      var e, rest := entries[0], entries[1..];
      var q, all := pos + |EncodeEntry(e)|, out[e.key := KeptEntry(e, keep)];
      HeadAndTail(entries);
      FirstEntryAt(data, pos, entries, q);
      assert ReadEntries(data, pos, |entries|, keep, out) == ReadEntries(data, q, |rest|, keep, all) by {
        EntryRead(data, pos, e, keep, q);
        ReadOne(data, pos, |entries|, keep, out, e.key, KeptEntry(e, keep), q);
      }
      assert ReadEntries(data, q, |rest|, keep, all) == Ok(KeptEntries(rest, keep, all), end) by {
        EntriesThere(data, q, rest, keep, all, end);
      }
    }
  }

  lemma {:induction false} UnreadableEntry(
      data: Bytes, pos: nat, entries: seq<Entry>, keep: nat, out: map<Bytes, Value>, bad: Entry)
    requires (forall e <- entries :: WellFormedEntry(e)) && At(data, pos, EncodeMetadata(entries))
    requires bad in entries && !Readable(bad)
    ensures ReadEntries(data, pos, |entries|, keep, out) == Bad
    decreases |entries|
  {
    var e, rest := entries[0], entries[1..];
    var q, all := pos + |EncodeEntry(e)|, out[e.key := KeptEntry(e, keep)];
    HeadAndTail(entries);
    FirstEntryAt(data, pos, entries, q);
    if Readable(e) {
      assert ReadEntries(data, pos, |entries|, keep, out) == ReadEntries(data, q, |rest|, keep, all) by {
        EntryRead(data, pos, e, keep, q);
        ReadOne(data, pos, |entries|, keep, out, e.key, KeptEntry(e, keep), q);
      }
      assert ReadEntries(data, q, |rest|, keep, all) == Bad by {
        UnreadableEntry(data, q, rest, keep, all, bad);
      }
    } else {
      EntryRead(data, pos, e, keep, q);
    }
  }

  /**
   * read_metadata of an encoded header: it yields every entry, later ones over
   * earlier ones of the same key, exactly when no tokenizer array holds arrays.
   */
  lemma MetadataRoundTrip(h: Header, rest: Bytes, keep: nat)
    requires WellFormedHeader(h)
    ensures ReadMetadata(EncodeHeader(h) + rest, keep)
         == if forall e <- h.metadata :: Readable(e)
            then Ok(KeptEntries(h.metadata, keep, map[]), 24 + |EncodeMetadata(h.metadata)|)
            else Bad
  {
    var data := EncodeHeader(h) + rest;
    assert At(data, 0, EncodeHeader(h));
    PreambleThere(data, h);
    if bad :| bad in h.metadata && !Readable(bad) {
      UnreadableEntry(data, 24, h.metadata, keep, map[], bad);
    } else {
      EntriesThere(data, 24, h.metadata, keep, map[], 24 + |EncodeMetadata(h.metadata)|);
    }
  }
}
