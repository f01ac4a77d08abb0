// Which truncated files the two GGUF header parsers fail to notice
// (python/autoconfig/gguf_meta.py): a read past the end of the file is short,
// not an error, so the last string, and when skipping the last scalars, may be
// cut off unseen.
module GgufTruncation {
  import opened Sequences
  import opened LittleEndian
  import opened GgufFormat
  import opened GgufParse
  import opened GgufRoundTrip

  /** The file ends inside b, which starts at pos. */
  ghost predicate Cut(data: Bytes, pos: nat, b: Bytes) {
    pos <= |data| < pos + |b| && data[pos..] == b[..|data| - pos]
  }

  lemma CutSplit(data: Bytes, pos: nat, whole: Bytes, a: Bytes, b: Bytes)
    requires whole == a + b && Cut(data, pos, whole)
    ensures Cut(data, pos, a) || (At(data, pos, a) && Cut(data, pos + |a|, b))
  {
    var n := |data| - pos;
    if n < |a| {
      assert whole[..n] == a[..n];
    } else {
      assert data[pos..pos + |a|] == whole[..n][..|a|] == a;
      assert data[pos + |a|..] == whole[..n][|a|..] == b[..n - |a|];
    }
  }

  // ---- how much may be missing ------------------------------------------------

  /** Trailing bytes of an encoded value that the building parser does not miss: the last string's characters. */
  function ReadSlack(t: Tree): nat
    decreases t, 1
  {
    match t
    case Scalar(_, _) => 0
    case Text(raw) => |raw|
    case Array(_, elems) => ReadSlackOf(elems)
  }

  function ReadSlackOf(elems: seq<Tree>): nat
    decreases elems, 0
  {
    if elems == [] then 0 else if |elems| == 1 then ReadSlack(elems[0]) else ReadSlackOf(elems[1..])
  }

  /**
   * Trailing bytes that the skipping parser does not miss: the last string's
   * characters, a scalar, or the whole body of an array of scalars.
   */
  function SkipSlack(t: Tree): nat
    decreases t, 1
  {
    match t
    case Scalar(_, raw) => |raw|
    case Text(raw) => |raw|
    case Array(etype, elems) => if ScalarSize(etype) > 0 then |EncodeAll(elems)| else SkipSlackOf(elems)
  }

  function SkipSlackOf(elems: seq<Tree>): nat
    decreases elems, 0
  {
    if elems == [] then 0 else if |elems| == 1 then SkipSlack(elems[0]) else SkipSlackOf(elems[1..])
  }

  /** What may be missing is part of the value, and of an array part of its elements. */
  lemma {:induction false} SlackWithin(t: Tree)
    ensures ReadSlack(t) <= SkipSlack(t) <= |Encode(t)|
    ensures t.Text? ==> SkipSlack(t) + 8 == |Encode(t)|
    ensures t.Array? ==> SkipSlack(t) + 12 <= |Encode(t)|
    decreases t, 1
  {
    if t.Array? {
      SlackOfWithin(t.elems);
    }
  }

  lemma {:induction false} SlackOfWithin(elems: seq<Tree>)
    ensures ReadSlackOf(elems) <= SkipSlackOf(elems) <= |EncodeAll(elems)|
    decreases elems, 0
  {
    if elems != [] {
      SlackWithin(elems[0]);
      SlackOfWithin(elems[1..]);
    }
  }

  // ---- one value, cut -----------------------------------------------------------

  /** A cut string is read, short, as soon as its length is there. */
  lemma TextCut(data: Bytes, pos: nat, s: Bytes)
    requires |s| < U64_LIMIT && Cut(data, pos, EncodeText(s))
    ensures ReadText(data, pos).Ok? <==> |data| >= pos + 8
    ensures ReadText(data, pos).Ok? ==> ReadText(data, pos) == Ok(s[..|data| - pos - 8], |data|)
  {
    CutSplit(data, pos, EncodeText(s), Digits(|s|, 8), s);
    if |data| >= pos + 8 {
      NumberThere(data, pos, |s|, 8);
      assert Past(data, pos + 8, |s|) == |data| && data[pos + 8..|data|] == data[pos + 8..] == s[..|data| - pos - 8];
    }
  }

  /** Nothing but an absent value is read at the end of the file. */
  lemma NothingAtEnd(data: Bytes, vtype: nat, keep: nat)
    ensures ReadValue(data, |data|, vtype, keep) == Bad
    ensures ScalarSize(vtype) == 0 ==> SkipValue(data, |data|, vtype) == Bad
  {
  }

  /** A value cut inside an array's element type or count is an error to both parsers. */
  lemma ShortStart(data: Bytes, pos: nat, keep: nat)
    requires pos <= |data| < pos + 12
    ensures ReadValue(data, pos, ARRAY, keep) == Bad && SkipValue(data, pos, ARRAY) == Bad
  {
  }

  /**
   * The building parser on a file that ends inside a value: it goes through
   * exactly when only characters of the value's last string are missing.
   */
  lemma {:induction false} ReadCut(data: Bytes, pos: nat, t: Tree, keep: nat)
    requires WellFormed(t) && Cut(data, pos, Encode(t))
    ensures ReadValue(data, pos, TypeOf(t), keep).Ok? <==> |data| + ReadSlack(t) >= pos + |Encode(t)|
    ensures var r := ReadValue(data, pos, TypeOf(t), keep); r.Ok? ==> r.pos == |data|
    decreases t, 1
  {
    match t
    case Scalar(_, _) =>
    case Text(raw) =>
      TextCut(data, pos, raw);
    case Array(etype, elems) =>
      var start, body := Digits(etype, 4) + Digits(|elems|, 8), EncodeAll(elems);
      SlackOfWithin(elems);
      CutSplit(data, pos, Encode(t), start, body);
      if Cut(data, pos, start) {
        ShortStart(data, pos, keep);
      } else {
        ArrayStart(data, pos, etype, |elems|);
        ReadItemsCut(data, pos + 12, etype, elems, keep, |elems|, 0, []);
      }
  }

  lemma {:induction false} ReadItemsCut(data: Bytes, pos: nat, etype: nat, elems: seq<Tree>, keep: nat,
                                        count: nat, i: nat, items: seq<Value>)
    requires count == i + |elems| && Cut(data, pos, EncodeAll(elems))
    requires forall e <- elems :: TypeOf(e) == etype && WellFormed(e)
    ensures ReadItems(data, pos, etype, keep, count, i, items).Ok?
      <==> |data| + ReadSlackOf(elems) >= pos + |EncodeAll(elems)|
    ensures var r := ReadItems(data, pos, etype, keep, count, i, items); r.Ok? ==> r.pos == |data|
    decreases elems, 0
  {
    var e, rest := elems[0], elems[1..];
    HeadAndTail(elems);
    CutSplit(data, pos, EncodeAll(elems), Encode(e), EncodeAll(rest));
    if Cut(data, pos, Encode(e)) {
      ReadCut(data, pos, e, keep);
      SlackOfWithin(rest);
      NothingAtEnd(data, etype, keep);
    } else {
      var q := pos + |Encode(e)|;
      ValueRoundTrip(data, pos, e, keep);
      ItemStep(data, pos, etype, keep, count, i, items, Kept(e, keep), q);
      ReadItemsCut(data, q, etype, rest, keep, count, i + 1, if i < keep then items + [Kept(e, keep)] else items);
    }
  }

  /** An array of scalars is as long as its element type says. */
  lemma {:induction false} ScalarBody(etype: nat, elems: seq<Tree>)
    requires ScalarSize(etype) > 0 && forall e <- elems :: TypeOf(e) == etype && WellFormed(e)
    ensures |EncodeAll(elems)| == ScalarSize(etype) * |elems|
    decreases elems
  {
    if elems != [] {
      HeadAndTail(elems);
      ScalarBody(etype, elems[1..]);
      var n := |elems| - 1;
      assert ScalarSize(etype) * (n + 1) == ScalarSize(etype) * n + ScalarSize(etype);
    }
  }

  /** Skipping strings is skipping values of string type. */
  lemma {:induction false} TextsAreValues(data: Bytes, pos: nat, count: nat)
    requires pos <= |data|
    ensures SkipTexts(data, pos, count) == SkipValues(data, pos, STRING, count)
    decreases count
  {
    if count > 0 {
      var r := ReadText(data, pos);
      if r.Ok? {
        TextsAreValues(data, r.pos, count - 1);
      }
    }
  }

  /**
   * The skipping parser on a file that ends inside a value: it goes through
   * exactly when only characters of the last string, or bytes of the last
   * scalar or scalar array, are missing.
   */
  lemma {:induction false} SkipCut(data: Bytes, pos: nat, t: Tree)
    requires WellFormed(t) && Cut(data, pos, Encode(t))
    ensures SkipValue(data, pos, TypeOf(t)).Ok? <==> |data| + SkipSlack(t) >= pos + |Encode(t)|
    ensures var r := SkipValue(data, pos, TypeOf(t)); r.Ok? ==> r.pos == |data|
    decreases t, 1
  {
    match t
    case Scalar(_, _) =>
    case Text(raw) =>
      TextCut(data, pos, raw);
    case Array(etype, elems) =>
      var start, body := Digits(etype, 4) + Digits(|elems|, 8), EncodeAll(elems);
      SlackWithin(t);
      CutSplit(data, pos, Encode(t), start, body);
      if Cut(data, pos, start) {
        ShortStart(data, pos, 0);
      } else {
        ArrayStart(data, pos, etype, |elems|);
        if ScalarSize(etype) > 0 {
          ScalarBody(etype, elems);
        } else {
          TextsAreValues(data, pos + 12, |elems|);
          SkipItemsCut(data, pos + 12, etype, elems);
        }
      }
  }

  lemma {:induction false} SkipItemsCut(data: Bytes, pos: nat, etype: nat, elems: seq<Tree>)
    requires ScalarSize(etype) == 0 && Cut(data, pos, EncodeAll(elems))
    requires forall e <- elems :: TypeOf(e) == etype && WellFormed(e)
    ensures SkipValues(data, pos, etype, |elems|).Ok? <==> |data| + SkipSlackOf(elems) >= pos + |EncodeAll(elems)|
    ensures var r := SkipValues(data, pos, etype, |elems|); r.Ok? ==> r.pos == |data|
    decreases elems, 0
  {
    var e, rest := elems[0], elems[1..];
    HeadAndTail(elems);
    CutSplit(data, pos, EncodeAll(elems), Encode(e), EncodeAll(rest));
    if Cut(data, pos, Encode(e)) {
      SkipCut(data, pos, e);
      SlackOfWithin(rest);
      NothingAtEnd(data, etype, 0);
    } else {
      CursorsAgree(data, pos, e, 0);
      SkipItemsCut(data, pos + |Encode(e)|, etype, rest);
    }
  }

  /** On a cut value the skipping parser accepts all that the building parser does, and the scalars besides. */
  lemma CutsMissed(t: Tree, n: nat, keep: nat)
    requires WellFormed(t) && n < |Encode(t)|
    ensures ReadValue(Encode(t)[..n], 0, TypeOf(t), keep).Ok? <==> n + ReadSlack(t) >= |Encode(t)|
    ensures SkipValue(Encode(t)[..n], 0, TypeOf(t)).Ok? <==> n + SkipSlack(t) >= |Encode(t)|
    ensures ReadSlack(t) <= SkipSlack(t)
  {
    ReadCut(Encode(t)[..n], 0, t, keep);
    SkipCut(Encode(t)[..n], 0, t);
    SlackWithin(t);
  }

  // ---- entries and descriptors, cut ---------------------------------------------

  lemma EntryCut(data: Bytes, pos: nat, e: Entry)
    requires WellFormedEntry(e) && Cut(data, pos, EncodeEntry(e))
    ensures SkipEntry(data, pos).Ok? <==> |data| + SkipSlack(e.value) >= pos + |EncodeEntry(e)|
    ensures SkipEntry(data, pos).Ok? ==> SkipEntry(data, pos).pos == |data|
  {
    var k, d, v := EncodeText(e.key), Digits(TypeOf(e.value), 4), Encode(e.value);
    SlackWithin(e.value);
    CutSplit(data, pos, EncodeEntry(e), k + d, v);
    if Cut(data, pos, k + d) {
      KeyCut(data, pos, e.key, TypeOf(e.value));
    } else {
      KeyThere(data, pos, e);
      SkipCut(data, pos + |k| + 4, e.value);
      SkipParts(data, pos, e.key, pos + |k|, TypeOf(e.value), SkipValue(data, pos + |k| + 4, TypeOf(e.value)));
    }
  }

  /** A file that ends in an entry's key or type: the type cannot be read. */
  lemma KeyCut(data: Bytes, pos: nat, key: Bytes, vtype: nat)
    requires |key| < U64_LIMIT && Cut(data, pos, EncodeText(key) + Digits(vtype, 4))
    ensures var r := ReadText(data, pos); r == Bad || ReadNumber(data, r.pos, 4) == Bad
  {
    CutSplit(data, pos, EncodeText(key) + Digits(vtype, 4), EncodeText(key), Digits(vtype, 4));
    if Cut(data, pos, EncodeText(key)) {
      TextCut(data, pos, key);
    } else {
      TextThere(data, pos, key);
    }
  }

  lemma KeyThere(data: Bytes, pos: nat, e: Entry)
    requires WellFormedEntry(e) && At(data, pos, EncodeText(e.key) + Digits(TypeOf(e.value), 4))
    ensures var p := pos + |EncodeText(e.key)|;
      ReadText(data, pos) == Ok(e.key, p) && ReadNumber(data, p, 4) == Ok(TypeOf(e.value), p + 4) && p + 4 <= |data|
  {
    AtSplit(data, pos, EncodeText(e.key), Digits(TypeOf(e.value), 4));
    TextThere(data, pos, e.key);
    TypesAreSmall(e.value);
    NumberThere(data, pos + |EncodeText(e.key)|, TypeOf(e.value), 4);
  }

  lemma {:induction false} EntriesCut(data: Bytes, pos: nat, entries: seq<Entry>)
    requires entries != [] && (forall e <- entries :: WellFormedEntry(e)) && Cut(data, pos, EncodeMetadata(entries))
    ensures SkipEntries(data, pos, |entries|).Ok?
      <==> |data| + SkipSlack(Last(entries).value) >= pos + |EncodeMetadata(entries)|
    ensures var r := SkipEntries(data, pos, |entries|); r.Ok? ==> r.pos == |data|
    decreases |entries|
  {
    var e, rest := entries[0], entries[1..];
    HeadAndTail(entries);
    CutSplit(data, pos, EncodeMetadata(entries), EncodeEntry(e), EncodeMetadata(rest));
    if Cut(data, pos, EncodeEntry(e)) {
      EntryCut(data, pos, e);
      if rest != [] {
        LastWithin(rest);
      }
    } else {
      var q := pos + |EncodeEntry(e)|;
      EntrySkipped(data, pos, e, q);
      SkipOne(data, pos, |entries|, q);
      EntriesCut(data, q, rest);
    }
  }

  lemma {:induction false} LastWithin(entries: seq<Entry>)
    requires entries != []
    ensures SkipSlack(Last(entries).value) <= |EncodeMetadata(entries)|
    decreases |entries|
  {
    SlackWithin(entries[0].value);
    if |entries| > 1 {
      LastWithin(entries[1..]);
    }
  }

  /** A file that ends in a tensor descriptor is an error. */
  lemma TensorCut(data: Bytes, pos: nat, t: TensorInfo)
    requires WellFormedTensor(t) && Cut(data, pos, EncodeTensor(t))
    ensures ReadTensor(data, pos) == Bad
  {
    var n, d := EncodeText(t.name), Digits(|t.dims|, 4);
    var tail := EncodeDims(t.dims) + Digits(t.ggufType, 4) + Digits(t.offset, 8);
    assert EncodeTensor(t) == (n + d) + tail;
    CutSplit(data, pos, EncodeTensor(t), n + d, tail);
    if Cut(data, pos, n + d) {
      KeyCut(data, pos, t.name, |t.dims|);
    } else {
      AtSplit(data, pos, n, d);
      TextThere(data, pos, t.name);
      NumberThere(data, pos + |n|, |t.dims|, 4);
      ShortTail(data, pos, t.name, pos + |n|, |t.dims|);
    }
  }

  lemma ShortTail(data: Bytes, pos: nat, name: Bytes, p: nat, nd: nat)
    requires pos <= |data| && ReadText(data, pos) == Ok(name, p) && ReadNumber(data, p, 4) == Ok(nd, p + 4)
    requires |data| < p + 4 + 8 * nd + 12
    ensures ReadTensor(data, pos) == Bad
  {
  }

  lemma {:induction false} TensorsCut(data: Bytes, pos: nat, tensors: seq<TensorInfo>, infos: seq<TensorInfo>)
    requires (forall t <- tensors :: WellFormedTensor(t)) && Cut(data, pos, EncodeTensors(tensors))
    ensures ReadTensors(data, pos, |tensors|, infos) == Bad
    decreases |tensors|
  {
    var t, rest := tensors[0], tensors[1..];
    HeadAndTail(tensors);
    CutSplit(data, pos, EncodeTensors(tensors), EncodeTensor(t), EncodeTensors(rest));
    if Cut(data, pos, EncodeTensor(t)) {
      assert ReadTensor(data, pos) == Bad by {
        TensorCut(data, pos, t);
      }
    } else {
      var q := pos + |EncodeTensor(t)|;
      assert ReadTensors(data, pos, |tensors|, infos) == ReadTensors(data, q, |rest|, infos + [t]) by {
        TensorStep(data, pos, t, |tensors|, infos, q);
      }
      assert ReadTensors(data, q, |rest|, infos + [t]) == Bad by {
        TensorsCut(data, q, rest, infos + [t]);
      }
    }
  }

  // ---- whole headers, cut ---------------------------------------------------------

  /** Trailing bytes of a header that read_tensor_infos does not miss: none, once there is a tensor. */
  function HeaderSlack(h: Header): nat {
    if h.tensors != [] || h.metadata == [] then 0 else SkipSlack(Last(h.metadata).value)
  }

  lemma ShortPreamble(data: Bytes)
    requires |data| < 24
    ensures ReadPreamble(data) == Bad
  {
  }

  lemma HeaderParts(h: Header)
    ensures EncodeHeader(h) == Preamble(h) + EncodeMetadata(h.metadata) + EncodeTensors(h.tensors)
  {
  }

  /** What read_tensor_infos makes of the entries and descriptors once the counts are read. */
  lemma AfterPreamble(data: Bytes, c: Counts)
    requires ReadPreamble(data) == Ok(c, 24) && 24 <= |data|
    ensures var s := SkipEntries(data, 24, c.entries);
      ReadTensorInfos(data) == if s.Ok? then ReadTensors(data, s.pos, c.tensors, []) else Bad
  {
  }

  /** Past the end of the file there is no descriptor. */
  lemma NoTensorAtEnd(data: Bytes, count: nat)
    requires count > 0
    ensures ReadTensors(data, |data|, count, []) == Bad
  {
  }

  /**
   * Which truncated headers read_tensor_infos accepts: with a tensor in it,
   * none; without, exactly those that miss no more than the last entry's
   * slack, and then the answer is that there are no tensors.
   */
  lemma TruncatedHeader(h: Header, n: nat)
    requires WellFormedHeader(h) && n < |EncodeHeader(h)|
    ensures ReadTensorInfos(EncodeHeader(h)[..n]).Ok? <==> n + HeaderSlack(h) >= |EncodeHeader(h)|
    ensures ReadTensorInfos(EncodeHeader(h)[..n]).Ok? ==> ReadTensorInfos(EncodeHeader(h)[..n]) == Ok([], n)
  {
    var data, es, ts := EncodeHeader(h)[..n], EncodeMetadata(h.metadata), EncodeTensors(h.tensors);
    HeaderParts(h);
    HeaderSlackWithin(h);
    assert Cut(data, 0, Preamble(h) + es + ts);
    if n < 24 {
      ShortPreamble(data);
    } else {
      CutSplit(data, 0, Preamble(h) + es + ts, Preamble(h) + es, ts);
      if Cut(data, 0, Preamble(h) + es) {
        CutSplit(data, 0, Preamble(h) + es, Preamble(h), es);
        CutInEntries(data, h);
      } else {
        AtSplit(data, 0, Preamble(h), es);
        CutInTensors(data, h);
      }
    }
  }

  lemma HeaderSlackWithin(h: Header)
    ensures HeaderSlack(h) <= |EncodeMetadata(h.metadata)|
  {
    if h.metadata != [] {
      LastWithin(h.metadata);
    }
  }

  lemma CutInEntries(data: Bytes, h: Header)
    requires WellFormedHeader(h) && At(data, 0, Preamble(h)) && Cut(data, 24, EncodeMetadata(h.metadata))
    ensures ReadTensorInfos(data).Ok?
      <==> h.tensors == [] && |data| + HeaderSlack(h) >= 24 + |EncodeMetadata(h.metadata)|
    ensures ReadTensorInfos(data).Ok? ==> ReadTensorInfos(data) == Ok([], |data|)
  {
    PreambleAlone(data, h);
    AfterPreamble(data, Counts(|h.tensors|, |h.metadata|));
    EntriesCut(data, 24, h.metadata);
    if h.tensors != [] {
      NoTensorAtEnd(data, |h.tensors|);
    }
  }

  lemma CutInTensors(data: Bytes, h: Header)
    requires WellFormedHeader(h) && At(data, 0, Preamble(h)) && At(data, 24, EncodeMetadata(h.metadata))
    requires Cut(data, 24 + |EncodeMetadata(h.metadata)|, EncodeTensors(h.tensors))
    ensures ReadTensorInfos(data) == Bad
  {
    var q := 24 + |EncodeMetadata(h.metadata)|;
    PreambleAlone(data, h);
    AfterPreamble(data, Counts(|h.tensors|, |h.metadata|));
    EntriesSkipped(data, 24, h.metadata, q);
    TensorsCut(data, q, h.tensors, []);
  }

  // ---- metadata, cut ----------------------------------------------------------------

  /** Trailing bytes of an entry that read_metadata does not miss: tokenizer arrays are skipped, all else is built. */
  function EntrySlack(e: Entry): nat {
    if TOKENIZER <= e.key && e.value.Array? then SkipSlack(e.value) else ReadSlack(e.value)
  }

  function MetadataSlack(h: Header): nat {
    if h.metadata == [] then 0 else EntrySlack(Last(h.metadata))
  }

  lemma {:induction false} ScalarElems(data: Bytes, pos: nat, etype: nat, count: nat)
    requires pos <= |data| && ScalarSize(etype) > 0
    ensures SkipElems(data, pos, etype, count) == Ok((), Past(data, pos, ScalarSize(etype) * count))
    decreases count
  {
    if count > 0 {
      ScalarElems(data, Past(data, pos, ScalarSize(etype)), etype, count - 1);
      var n := count - 1;
      assert ScalarSize(etype) * (n + 1) == ScalarSize(etype) * n + ScalarSize(etype);
    }
  }

  lemma {:induction false} ElemsAreTexts(data: Bytes, pos: nat, count: nat)
    requires pos <= |data|
    ensures SkipElems(data, pos, STRING, count) == SkipTexts(data, pos, count)
    decreases count
  {
    if count > 0 {
      var r := ReadText(data, pos);
      if r.Ok? {
        ElemsAreTexts(data, r.pos, count - 1);
      }
    }
  }

  lemma TokenArrayCut(data: Bytes, pos: nat, etype: nat, elems: seq<Tree>)
    requires Cut(data, pos, EncodeAll(elems)) && forall e <- elems :: TypeOf(e) == etype && WellFormed(e)
    ensures var r := SkipElems(data, pos, etype, |elems|);
      && (r.Ok? ==> r.pos == |data|)
      && (r.Ok? <==> (ScalarSize(etype) > 0 || etype == STRING)
                     && |data| + SkipSlack(Array(etype, elems)) >= pos + |EncodeAll(elems)|)
  {
    if ScalarSize(etype) > 0 {
      ScalarElems(data, pos, etype, |elems|);
      ScalarBody(etype, elems);
    } else if etype == STRING {
      ElemsAreTexts(data, pos, |elems|);
      TextsAreValues(data, pos, |elems|);
      SkipItemsCut(data, pos, etype, elems);
    }
  }

  lemma EntryValueCut(data: Bytes, pos: nat, e: Entry, keep: nat)
    requires WellFormedEntry(e) && Cut(data, pos, Encode(e.value))
    ensures var r := ReadEntryValue(data, pos, e.key, TypeOf(e.value), keep);
      && (r.Ok? ==> r.pos == |data|)
      && (r.Ok? <==> Readable(e) && |data| + EntrySlack(e) >= pos + |Encode(e.value)|)
  {
    SlackWithin(e.value);
    if TOKENIZER <= e.key && e.value.Array? {
      var etype, elems := e.value.etype, e.value.elems;
      var start := Digits(etype, 4) + Digits(|elems|, 8);
      CutSplit(data, pos, Encode(e.value), start, EncodeAll(elems));
      if At(data, pos, start) {
        ArrayStart(data, pos, etype, |elems|);
        TokenArrayCut(data, pos + 12, etype, elems);
      }
    } else {
      assert TypeOf(e.value) == ARRAY ==> e.value.Array? by {
        assert ScalarSize(ARRAY) == 0;
      }
      ReadCut(data, pos, e.value, keep);
    }
  }

  lemma ReadEntryCut(data: Bytes, pos: nat, e: Entry, keep: nat)
    requires WellFormedEntry(e) && Cut(data, pos, EncodeEntry(e))
    ensures var r := ReadEntry(data, pos, keep);
      && (r.Ok? ==> r.pos == |data|)
      && (r.Ok? <==> Readable(e) && |data| + EntrySlack(e) >= pos + |EncodeEntry(e)|)
  {
    var k, d, v := EncodeText(e.key), Digits(TypeOf(e.value), 4), Encode(e.value);
    SlackWithin(e.value);
    CutSplit(data, pos, EncodeEntry(e), k + d, v);
    if Cut(data, pos, k + d) {
      KeyCut(data, pos, e.key, TypeOf(e.value));
    } else {
      KeyThere(data, pos, e);
      EntryValueCut(data, pos + |k| + 4, e, keep);
      ReadEntryParts(data, pos, keep, e.key, pos + |k|, TypeOf(e.value),
                     ReadEntryValue(data, pos + |k| + 4, e.key, TypeOf(e.value), keep));
    }
  }

  lemma NoEntryAtEnd(data: Bytes, count: nat, keep: nat, out: map<Bytes, Value>)
    requires count > 0
    ensures ReadEntries(data, |data|, count, keep, out) == Bad
  {
  }

  lemma {:induction false} ReadEntriesCut(data: Bytes, pos: nat, entries: seq<Entry>, keep: nat,
                                          out: map<Bytes, Value>)
    requires entries != [] && (forall e <- entries :: WellFormedEntry(e)) && Cut(data, pos, EncodeMetadata(entries))
    ensures ReadEntries(data, pos, |entries|, keep, out).Ok?
      <==> (forall e <- entries :: Readable(e))
           && |data| + EntrySlack(Last(entries)) >= pos + |EncodeMetadata(entries)|
    decreases |entries|
  {
    var e, rest := entries[0], entries[1..];
    HeadAndTail(entries);
    CutSplit(data, pos, EncodeMetadata(entries), EncodeEntry(e), EncodeMetadata(rest));
    if Cut(data, pos, EncodeEntry(e)) {
      ReadEntryCut(data, pos, e, keep);
      if rest != [] {
        LastEntryWithin(rest);
        NoMoreAfter(data, pos, |entries|, keep, out);
      } else {
        OneEntry(data, pos, keep, out);
      }
    } else {
      var q := pos + |EncodeEntry(e)|;
      EntryRead(data, pos, e, keep, q);
      if Readable(e) {
        ReadOne(data, pos, |entries|, keep, out, e.key, KeptEntry(e, keep), q);
        ReadEntriesCut(data, q, rest, keep, out[e.key := KeptEntry(e, keep)]);
      }
    }
  }

  lemma LastEntryWithin(entries: seq<Entry>)
    requires entries != []
    ensures EntrySlack(Last(entries)) <= |EncodeMetadata(entries)|
  {
    LastWithin(entries);
    SlackWithin(Last(entries).value);
  }

  /** An entry that was read up to the end of the file, or not at all, leaves no further one. */
  lemma NoMoreAfter(data: Bytes, pos: nat, count: nat, keep: nat, out: map<Bytes, Value>)
    requires pos <= |data| && count > 1
    requires var r := ReadEntry(data, pos, keep); r.Ok? ==> r.pos == |data|
    ensures ReadEntries(data, pos, count, keep, out) == Bad
  {
    var r := ReadEntry(data, pos, keep);
    if r.Ok? {
      NoEntryAtEnd(data, count - 1, keep, out[r.value.0 := r.value.1]);
    }
  }

  lemma OneEntry(data: Bytes, pos: nat, keep: nat, out: map<Bytes, Value>)
    requires pos <= |data|
    ensures ReadEntries(data, pos, 1, keep, out).Ok? <==> ReadEntry(data, pos, keep).Ok?
  {
  }

  /**
   * Which truncated headers read_metadata accepts: exactly those it would
   * accept whole that miss no more of the entries than the last one's slack.
   */
  lemma TruncatedMetadata(h: Header, n: nat, keep: nat)
    requires WellFormedHeader(h) && n <= |EncodeHeader(h)|
    ensures ReadMetadata(EncodeHeader(h)[..n], keep).Ok?
      <==> (forall e <- h.metadata :: Readable(e)) && n + MetadataSlack(h) >= 24 + |EncodeMetadata(h.metadata)|
  {
    var data, es, ts := EncodeHeader(h)[..n], EncodeMetadata(h.metadata), EncodeTensors(h.tensors);
    HeaderParts(h);
    if h.metadata != [] {
      LastEntryWithin(h.metadata);
    }
    if n < 24 {
      ShortPreamble(data);
    } else if n < 24 + |es| {
      assert Cut(data, 0, Preamble(h) + es);
      CutSplit(data, 0, Preamble(h) + es, Preamble(h), es);
      PreambleAlone(data, h);
      ReadEntriesCut(data, 24, h.metadata, keep, map[]);
    } else {
      assert At(data, 0, Preamble(h) + es);
      AtSplit(data, 0, Preamble(h), es);
      PreambleAlone(data, h);
      WholeEntries(data, h, keep);
    }
  }

  lemma WholeEntries(data: Bytes, h: Header, keep: nat)
    requires WellFormedHeader(h) && At(data, 24, EncodeMetadata(h.metadata))
    ensures ReadEntries(data, 24, |h.metadata|, keep, map[]).Ok? <==> forall e <- h.metadata :: Readable(e)
  {
    if bad :| bad in h.metadata && !Readable(bad) {
      UnreadableEntry(data, 24, h.metadata, keep, map[], bad);
    } else {
      EntriesThere(data, 24, h.metadata, keep, map[], 24 + |EncodeMetadata(h.metadata)|);
    }
  }

  // ---- two files whose truncation goes unnoticed --------------------------------------

  /** A header with one entry and no tensors. */
  function OneEntryHeader(value: Tree): Header {
    Header(3, [Entry([0x6B], value)], [])
  }

  lemma OneEntryIsWellFormed(value: Tree)
    requires WellFormed(value)
    ensures WellFormedHeader(OneEntryHeader(value))
    ensures var h := OneEntryHeader(value);
      |EncodeHeader(h)| == 24 + |EncodeMetadata(h.metadata)| >= 24 + |Encode(value)|
  {
    var h := OneEntryHeader(value);
    assert EncodeMetadata(h.metadata) == EncodeEntry(h.metadata[0]) + EncodeMetadata([]);
    HeaderParts(h);
  }

  /** A missing 32-bit scalar: read_tensor_infos goes through, read_metadata does not. */
  lemma ScalarCutOff(raw: Bytes, keep: nat)
    requires |raw| == 4
    ensures var b := EncodeHeader(OneEntryHeader(Scalar(4, raw)));
      |b| >= 4 && ReadTensorInfos(b[..|b| - 4]) == Ok([], |b| - 4) && ReadMetadata(b[..|b| - 4], keep) == Bad
  {
    var h := OneEntryHeader(Scalar(4, raw));
    var n := |EncodeHeader(h)| - 4;
    OneEntryIsWellFormed(Scalar(4, raw));
    TruncatedHeader(h, n);
    TruncatedMetadata(h, n, keep);
  }

  /** Missing characters of the last string: both go through. */
  lemma CharactersCutOff(raw: Bytes, keep: nat)
    requires 0 < |raw| < U64_LIMIT
    ensures var b := EncodeHeader(OneEntryHeader(Text(raw)));
      |b| >= |raw| && ReadTensorInfos(b[..|b| - |raw|]).Ok? && ReadMetadata(b[..|b| - |raw|], keep).Ok?
  {
    var h := OneEntryHeader(Text(raw));
    var n := |EncodeHeader(h)| - |raw|;
    assert n >= 0 && WellFormedHeader(h) && HeaderSlack(h) == MetadataSlack(h) == |raw| by {
      OneEntryIsWellFormed(Text(raw));
      SlackWithin(Text(raw));
    }
    assert ReadTensorInfos(EncodeHeader(h)[..n]).Ok? by {
      TruncatedHeader(h, n);
    }
    assert ReadMetadata(EncodeHeader(h)[..n], keep).Ok? by {
      TruncatedMetadata(h, n, keep);
    }
  }
}
