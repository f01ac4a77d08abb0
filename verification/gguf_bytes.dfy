// The GGUF layout in plain numbers: value types and their sizes, the first
// twenty-four bytes, the prefix of the tokenizer keys; and what both readers
// refuse (ggml docs/gguf.md, section "File Structure", as read by
// python/autoconfig/gguf_meta.py).
module GgufBytes {
  import opened LittleEndian
  import opened GgufFormat
  import opened GgufParse

  /** Bytes of a value by type id: u8, i8, u16, i16, u32, i32, f32, bool, string, array, u64, i64, f64. */
  const SIZES: seq<nat> := [1, 1, 2, 2, 4, 4, 4, 1, 0, 0, 8, 8, 8]

  lemma TypeTable(vtype: nat)
    ensures ScalarSize(vtype) == if vtype < 13 then SIZES[vtype] else 0
    ensures STRING == 8 && ARRAY == 9
  {
  }

  /** Both value parsers refuse every type beyond the table. */
  lemma UnknownTypesRaise(data: Bytes, pos: nat, vtype: nat, keep: nat)
    requires pos <= |data| && vtype >= 13
    ensures ReadValue(data, pos, vtype, keep) == Bad && SkipValue(data, pos, vtype) == Bad
  {
  }

  function Spelled(s: string): (b: seq<int>)
    ensures |b| == |s|
  {
    seq(|s|, i requires 0 <= i < |s| => s[i] as int)
  }

  lemma NamesSpelled()
    ensures MAGIC == Spelled("GGUF") && TOKENIZER == Spelled("tokenizer.ggml.")
  {
  }

  /** The first twenty-four bytes of a file. */
  function Start(magic: Bytes, version: nat, tensors: nat, entries: nat): (b: Bytes)
    requires |magic| == 4
    ensures |b| == 24
  {
    magic + Digits(version, 4) + Digits(tensors, 8) + Digits(entries, 8)
  }

  lemma FieldOfStart(magic: Bytes, version: nat, tensors: nat, entries: nat, rest: Bytes)
    requires |magic| == 4 && version < U32_LIMIT && tensors < U64_LIMIT && entries < U64_LIMIT
    ensures var data := Start(magic, version, tensors, entries) + rest;
      && data[..4] == magic && NumberAt(data, 4, 4) == version
      && NumberAt(data, 8, 8) == tensors && NumberAt(data, 16, 8) == entries
  {
    var v, t, e := Digits(version, 4), Digits(tensors, 8), Digits(entries, 8);
    var data := Start(magic, version, tensors, entries) + rest;
    Powers();
    assert data[4..8] == v && data[8..16] == t && data[16..24] == e;
    DigitsSpell(version, 4);
    DigitsSpell(tensors, 8);
    DigitsSpell(entries, 8);
  }

  /** A file starts with its magic, a version of at least 2, the number of tensors and the number of entries. */
  lemma StartExactly(magic: Bytes, version: nat, tensors: nat, entries: nat, rest: Bytes)
    requires |magic| == 4 && version < U32_LIMIT && tensors < U64_LIMIT && entries < U64_LIMIT
    ensures ReadPreamble(Start(magic, version, tensors, entries) + rest)
      == if magic == [0x47, 0x47, 0x55, 0x46] && version >= 2 then Ok(Counts(tensors, entries), 24) else Bad
  {
    FieldOfStart(magic, version, tensors, entries, rest);
  }

  /** A file too short for that, of another kind or of version 1 is refused by both readers. */
  lemma ForeignFilesRaise(data: Bytes, keep: nat)
    requires |data| < 24 || data[..4] != [0x47, 0x47, 0x55, 0x46] || NumberAt(data, 4, 4) < 2
    ensures ReadMetadata(data, keep) == Bad && ReadTensorInfos(data) == Bad
  {
  }
}
