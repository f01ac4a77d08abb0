// The header readers as they run: a file cursor that every read moves on
// (python/autoconfig/gguf_meta.py). An exception is the result Bad.
module GgufReader {
  import opened LittleEndian
  import opened GgufFormat
  import opened GgufParse

  lemma NumberInSlice(data: Bytes, start: nat, raw: Bytes, off: nat)
    requires start + |raw| <= |data| && raw == data[start..start + |raw|] && off + 8 <= |raw|
    ensures NumberAt(raw, off, 8) == NumberAt(data, start + off, 8)
  {
    var a, b := raw[off..off + 8], data[start + off..start + off + 8];
    forall i | 0 <= i < 8 ensures a[i] == b[i] {
      assert raw[off + i] == data[start + (off + i)];
    }
    assert a == b;
  }

  class File {
    const data: Bytes
    var pos: nat

    ghost predicate Valid()
      reads this
    {
      pos <= |data|
    }

    constructor (d: Bytes)
      ensures Valid() && data == d && pos == 0
    {
      data, pos := d, 0;
    }

    /** f.read(n) */
    method Read(n: nat) returns (b: Bytes)
      requires Valid()
      modifies this
      ensures Valid() && pos == Past(data, old(pos), n) && b == data[old(pos)..pos]
    {
      var end := if pos + n <= |data| then pos + n else |data|;
      b := data[pos..end];
      pos := end;
    }

    /** struct.unpack of one n-byte number. */
    method Unpack(n: nat) returns (r: Parsed<nat>)
      requires Valid()
      modifies this
      ensures Valid() && r == ReadNumber(data, old(pos), n) && (r.Ok? ==> r.pos == pos)
    {
      var b := Read(n);
      if |b| < n {
        return Bad;
      }
      return Ok(Number(b), pos);
    }

    method ReadStr() returns (r: Parsed<Bytes>)
      requires Valid()
      modifies this
      ensures Valid() && r == ReadText(data, old(pos)) && (r.Ok? ==> r.pos == pos)
    {
      var n := Unpack(8);
      if n.Bad? {
        return Bad;
      }
      var b := Read(n.value);
      return Ok(b, pos);
    }

    /** _read_value */
    method ReadOneValue(vtype: nat, keep: nat) returns (r: Parsed<Value>)
      requires Valid()
      modifies this
      ensures Valid() && r == ReadValue(data, old(pos), vtype, keep) && (r.Ok? ==> r.pos == pos)
      decreases |data| - pos, 0
    {
      if ScalarSize(vtype) > 0 {
        var b := Read(ScalarSize(vtype));
        if |b| < ScalarSize(vtype) {
          return Bad;
        }
        return Ok(Raw(vtype, b), pos);
      }
      if vtype == STRING {
        var s := ReadStr();
        if s.Bad? {
          return Bad;
        }
        return Ok(Chars(s.value), pos);
      }
      if vtype == ARRAY {
        var etype := Unpack(4);
        if etype.Bad? {
          return Bad;
        }
        var count := Unpack(8);
        if count.Bad? {
          return Bad;
        }
        var items := ReadArray(etype.value, count.value, keep);
        if items.Bad? {
          return Bad;
        }
        return Ok(if count.value <= keep then List(items.value) else Length(count.value), pos);
      }
      return Bad;
    }

    /** The element loop of _read_value. */
    method ReadArray(etype: nat, count: nat, keep: nat) returns (r: Parsed<seq<Value>>)
      requires Valid()
      modifies this
      ensures Valid() && r == ReadItems(data, old(pos), etype, keep, count, 0, []) && (r.Ok? ==> r.pos == pos)
      decreases |data| - pos, 1
    {
      var vals: seq<Value> := [];
      for i := 0 to count
        invariant Valid() && old(pos) <= pos
        invariant ReadItems(data, pos, etype, keep, count, i, vals)
          == ReadItems(data, old(pos), etype, keep, count, 0, [])
      {
        var v := ReadOneValue(etype, keep);
        if v.Bad? {
          return Bad;
        }
        if i < keep {
          vals := vals + [v.value];
        }
      }
      return Ok(vals, pos);
    }

    /** _skip_value */
    method SkipOneValue(vtype: nat) returns (r: Parsed<()>)
      requires Valid()
      modifies this
      ensures Valid() && r == SkipValue(data, old(pos), vtype) && (r.Ok? ==> r.pos == pos)
      decreases |data| - pos, 0
    {
      if ScalarSize(vtype) > 0 {
        var _ := Read(ScalarSize(vtype));
        return Ok((), pos);
      }
      if vtype == STRING {
        var s := ReadStr();
        return if s.Bad? then Bad else Ok((), pos);
      }
      if vtype == ARRAY {
        var etype := Unpack(4);
        if etype.Bad? {
          return Bad;
        }
        var count := Unpack(8);
        if count.Bad? {
          return Bad;
        }
        if ScalarSize(etype.value) > 0 {
          var _ := Read(ScalarSize(etype.value) * count.value);
          return Ok((), pos);
        }
        if etype.value == STRING {
          r := SkipStrings(count.value);
        } else {
          r := SkipArray(etype.value, count.value);
        }
        return r;
      }
      return Bad;
    }

    method SkipStrings(count: nat) returns (r: Parsed<()>)
      requires Valid()
      modifies this
      ensures Valid() && r == SkipTexts(data, old(pos), count) && (r.Ok? ==> r.pos == pos)
    {
      for i := 0 to count
        invariant Valid() && SkipTexts(data, pos, count - i) == SkipTexts(data, old(pos), count)
      {
        var s := ReadStr();
        if s.Bad? {
          return Bad;
        }
      }
      return Ok((), pos);
    }

    method SkipArray(etype: nat, count: nat) returns (r: Parsed<()>)
      requires Valid()
      modifies this
      ensures Valid() && r == SkipValues(data, old(pos), etype, count) && (r.Ok? ==> r.pos == pos)
      decreases |data| - pos, 1
    {
      for i := 0 to count
        invariant Valid() && old(pos) <= pos
        invariant SkipValues(data, pos, etype, count - i) == SkipValues(data, old(pos), etype, count)
      {
        var v := SkipOneValue(etype);
        if v.Bad? {
          return Bad;
        }
      }
      return Ok((), pos);
    }

    /** The tokenizer arrays' loop over _skip_value_elem. */
    method SkipTokens(etype: nat, count: nat) returns (r: Parsed<()>)
      requires Valid()
      modifies this
      ensures Valid() && r == SkipElems(data, old(pos), etype, count) && (r.Ok? ==> r.pos == pos)
    {
      for i := 0 to count
        invariant Valid() && SkipElems(data, pos, etype, count - i) == SkipElems(data, old(pos), etype, count)
      {
        if ScalarSize(etype) > 0 {
          var _ := Read(ScalarSize(etype));
        } else if etype == STRING {
          var s := ReadStr();
          if s.Bad? {
            return Bad;
          }
        } else {
          return Bad;
        }
      }
      return Ok((), pos);
    }

    /** Magic, version and the two counts. */
    method ReadStart() returns (r: Parsed<Counts>)
      requires Valid() && pos == 0
      modifies this
      ensures Valid() && r == ReadPreamble(data) && (r.Ok? ==> r.pos == pos)
    {
      var magic := Read(4);
      if magic != MAGIC {
        return Bad;
      }
      var version := Unpack(4);
      if version.Bad? || version.value < 2 {
        return Bad;
      }
      var tensors := Unpack(8);
      if tensors.Bad? {
        return Bad;
      }
      var entries := Unpack(8);
      if entries.Bad? {
        return Bad;
      }
      return Ok(Counts(tensors.value, entries.value), pos);
    }

    method ReadMetadataEntry(keep: nat) returns (r: Parsed<(Bytes, Value)>)
      requires Valid()
      modifies this
      ensures Valid() && r == ReadEntry(data, old(pos), keep) && (r.Ok? ==> r.pos == pos)
    {
      var key := ReadStr();
      if key.Bad? {
        return Bad;
      }
      var vtype := Unpack(4);
      if vtype.Bad? {
        return Bad;
      }
      var v: Parsed<Value>;
      if TOKENIZER <= key.value && vtype.value == ARRAY {
        v := ReadTokenArray();
      } else {
        v := ReadOneValue(vtype.value, keep);
      }
      return if v.Bad? then Bad else Ok((key.value, v.value), pos);
    }

    method ReadTokenArray() returns (r: Parsed<Value>)
      requires Valid()
      modifies this
      ensures Valid() && r == ReadEntryValue(data, old(pos), TOKENIZER, ARRAY, 0) && (r.Ok? ==> r.pos == pos)
    {
      var etype := Unpack(4);
      if etype.Bad? {
        return Bad;
      }
      var count := Unpack(8);
      if count.Bad? {
        return Bad;
      }
      var skipped := SkipTokens(etype.value, count.value);
      return if skipped.Bad? then Bad else Ok(Length(count.value), pos);
    }

    method ReadTensorInfo() returns (r: Parsed<TensorInfo>)
      requires Valid()
      modifies this
      ensures Valid() && r == ReadTensor(data, old(pos)) && (r.Ok? ==> r.pos == pos)
    {
      var name := ReadStr();
      if name.Bad? {
        return Bad;
      }
      var nd := Unpack(4);
      if nd.Bad? {
        return Bad;
      }
      var start := pos;
      var raw := Read(8 * nd.value);
      if |raw| < 8 * nd.value {
        return Bad;
      }
      var dims := seq(nd.value, i requires 0 <= i < nd.value => NumberAt(raw, 8 * i, 8));
      assert dims == DimsAt(data, start, nd.value) by {
        forall i | 0 <= i < nd.value ensures dims[i] == NumberAt(data, start + 8 * i, 8) {
          NumberInSlice(data, start, raw, 8 * i);
        }
      }
      var gtype := Unpack(4);
      if gtype.Bad? {
        return Bad;
      }
      var off := Unpack(8);
      if off.Bad? {
        return Bad;
      }
      return Ok(TensorInfo(name.value, dims, gtype.value, off.value), pos);
    }
  }

  method ReadMetadataOf(data: Bytes, keep: nat) returns (r: Parsed<map<Bytes, Value>>)
    ensures r == ReadMetadata(data, keep)
  {
    var f := new File(data);
    var c := f.ReadStart();
    if c.Bad? {
      return Bad;
    }
    r := ReadAllEntries(f, c.value.entries, keep);
  }

  method ReadAllEntries(f: File, entries: nat, keep: nat) returns (r: Parsed<map<Bytes, Value>>)
    requires f.Valid()
    modifies f
    ensures r == ReadEntries(f.data, old(f.pos), entries, keep, map[])
  {
    var out: map<Bytes, Value> := map[];
    for i := 0 to entries
      invariant f.Valid()
      invariant ReadEntries(f.data, f.pos, entries - i, keep, out)
        == ReadEntries(f.data, old(f.pos), entries, keep, map[])
    {
      var e := f.ReadMetadataEntry(keep);
      if e.Bad? {
        return Bad;
      }
      out := out[e.value.0 := e.value.1];
    }
    return Ok(out, f.pos);
  }

  method ReadTensorInfosOf(data: Bytes) returns (r: Parsed<seq<TensorInfo>>)
    ensures r == ReadTensorInfos(data)
  {
    var f := new File(data);
    var c := f.ReadStart();
    if c.Bad? {
      return Bad;
    }
    var skipped := SkipMetadata(f, c.value.entries);
    if skipped.Bad? {
      return Bad;
    }
    r := ReadAllTensors(f, c.value.tensors);
  }

  method ReadAllTensors(f: File, count: nat) returns (r: Parsed<seq<TensorInfo>>)
    requires f.Valid()
    modifies f
    ensures r == ReadTensors(f.data, old(f.pos), count, [])
  {
    var infos: seq<TensorInfo> := [];
    for i := 0 to count
      invariant f.Valid() && ReadTensors(f.data, f.pos, count - i, infos) == ReadTensors(f.data, old(f.pos), count, [])
    {
      var t := f.ReadTensorInfo();
      if t.Bad? {
        return Bad;
      }
      infos := infos + [t.value];
    }
    return Ok(infos, f.pos);
  }

  method SkipMetadata(f: File, entries: nat) returns (r: Parsed<()>)
    requires f.Valid()
    modifies f
    ensures f.Valid() && r == SkipEntries(f.data, old(f.pos), entries) && (r.Ok? ==> r.pos == f.pos)
  {
    for i := 0 to entries
      invariant f.Valid() && SkipEntries(f.data, f.pos, entries - i) == SkipEntries(f.data, old(f.pos), entries)
    {
      var key := f.ReadStr();
      if key.Bad? {
        return Bad;
      }
      var vtype := f.Unpack(4);
      if vtype.Bad? {
        return Bad;
      }
      var v := f.SkipOneValue(vtype.value);
      if v.Bad? {
        return Bad;
      }
    }
    return Ok((), f.pos);
  }
}
