// What the two header parsers do with any bytes at all, as functions of the
// bytes and the cursor (python/autoconfig/gguf_meta.py).
module GgufParse {
  import opened LittleEndian
  import opened GgufFormat

  /** A result and the cursor after it, or the exception that struct.unpack or the parser raises. */
  datatype Parsed<+T> = Ok(value: T, pos: nat) | Bad

  /** What the value reader returns; an array longer than the caller keeps is only its length. */
  datatype Value = Raw(vtype: nat, raw: Bytes) | Chars(raw: Bytes) | List(items: seq<Value>) | Length(count: nat)

  /** The cursor after f.read(n): a read past the end is short, not an error. */
  function Past(data: Bytes, pos: nat, n: nat): nat {
    if pos + n <= |data| then pos + n else |data|
  }

  /** struct.unpack(fmt, f.read(n)): a short read is an error. */
  function ReadNumber(data: Bytes, pos: nat, n: nat): Parsed<nat> {
    if pos + n <= |data| then Ok(NumberAt(data, pos, n), pos + n) else Bad
  }

  /** A length, then that many bytes, or as many as there are. */
  function ReadText(data: Bytes, pos: nat): (r: Parsed<Bytes>)
    ensures r.Ok? && pos <= |data| ==> pos + 8 <= r.pos <= |data|
  {
    match ReadNumber(data, pos, 8)
    case Bad => Bad
    case Ok(n, p) => Ok(data[p..Past(data, p, n)], Past(data, p, n))
  }

  // ---- the parser that builds values ----------------------------------------

  function ReadValue(data: Bytes, pos: nat, vtype: nat, keep: nat): (r: Parsed<Value>)
    requires pos <= |data|
    ensures r.Ok? ==> pos <= r.pos <= |data|
    decreases |data| - pos, 0, 0
  {
    if ScalarSize(vtype) > 0 then
      var n := ScalarSize(vtype);
      if pos + n <= |data| then Ok(Raw(vtype, data[pos..pos + n]), pos + n) else Bad
    else if vtype == STRING then
      match ReadText(data, pos)
      case Bad => Bad
      case Ok(s, p) => Ok(Chars(s), p)
    else if vtype == ARRAY then
      match ReadNumber(data, pos, 4)
      case Bad => Bad
      case Ok(etype, p4) =>
        match ReadNumber(data, p4, 8)
        case Bad => Bad
        case Ok(count, p12) =>
          match ReadItems(data, p12, etype, keep, count, 0, [])
          case Bad => Bad
          case Ok(items, p) => Ok(if count <= keep then List(items) else Length(count), p)
    else Bad
  }

  /** The element loop, from element i on, with the items kept so far. */
  function ReadItems(data: Bytes, pos: nat, etype: nat, keep: nat, count: nat, i: nat, items: seq<Value>)
      : (r: Parsed<seq<Value>>)
    requires pos <= |data| && i <= count
    ensures r.Ok? ==> pos <= r.pos <= |data|
    decreases |data| - pos, 1, count - i
  {
    if i == count then Ok(items, pos)
    else
      match ReadValue(data, pos, etype, keep)
      case Bad => Bad
      case Ok(v, p) => ReadItems(data, p, etype, keep, count, i + 1, if i < keep then items + [v] else items)
  }

  // ---- the parser that skips ------------------------------------------------

  function SkipValue(data: Bytes, pos: nat, vtype: nat): (r: Parsed<()>)
    requires pos <= |data|
    ensures r.Ok? ==> pos <= r.pos <= |data|
    decreases |data| - pos, 0, 0
  {
    if ScalarSize(vtype) > 0 then Ok((), Past(data, pos, ScalarSize(vtype)))
    else if vtype == STRING then
      match ReadText(data, pos)
      case Bad => Bad
      case Ok(_, p) => Ok((), p)
    else if vtype == ARRAY then
      match ReadNumber(data, pos, 4)
      case Bad => Bad
      case Ok(etype, p4) =>
        match ReadNumber(data, p4, 8)
        case Bad => Bad
        case Ok(count, p12) =>
          if ScalarSize(etype) > 0 then Ok((), Past(data, p12, ScalarSize(etype) * count))
          else if etype == STRING then SkipTexts(data, p12, count)
          else SkipValues(data, p12, etype, count)
    else Bad
  }

  function SkipTexts(data: Bytes, pos: nat, count: nat): (r: Parsed<()>)
    requires pos <= |data|
    ensures r.Ok? ==> pos <= r.pos <= |data|
    decreases count
  {
    if count == 0 then Ok((), pos)
    else
      match ReadText(data, pos)
      case Bad => Bad
      case Ok(_, p) => SkipTexts(data, p, count - 1)
  }

  function SkipValues(data: Bytes, pos: nat, etype: nat, count: nat): (r: Parsed<()>)
    requires pos <= |data|
    ensures r.Ok? ==> pos <= r.pos <= |data|
    decreases |data| - pos, 1, count
  {
    if count == 0 then Ok((), pos)
    else
      match SkipValue(data, pos, etype)
      case Bad => Bad
      case Ok(_, p) => SkipValues(data, p, etype, count - 1)
  }

  /** _skip_value_elem, count times: elements of a tokenizer array, which must not be arrays themselves. */
  function SkipElems(data: Bytes, pos: nat, etype: nat, count: nat): (r: Parsed<()>)
    requires pos <= |data|
    ensures r.Ok? ==> pos <= r.pos <= |data|
    decreases count
  {
    if count == 0 then Ok((), pos)
    else if ScalarSize(etype) > 0 then SkipElems(data, Past(data, pos, ScalarSize(etype)), etype, count - 1)
    else if etype == STRING then
      match ReadText(data, pos)
      case Bad => Bad
      case Ok(_, p) => SkipElems(data, p, etype, count - 1)
    else Bad
  }

  // ---- whole headers --------------------------------------------------------

  datatype Counts = Counts(tensors: nat, entries: nat)

  function ReadPreamble(data: Bytes): (r: Parsed<Counts>)
    ensures r.Ok? ==> r.pos <= |data|
  {
    if |data| < 4 || data[..4] != MAGIC then Bad
    else
      match ReadNumber(data, 4, 4)
      case Bad => Bad
      case Ok(version, _) =>
        if version < 2 then Bad
        else
          match ReadNumber(data, 8, 8)
          case Bad => Bad
          case Ok(tensors, _) =>
            match ReadNumber(data, 16, 8)
            case Bad => Bad
            case Ok(entries, p) => Ok(Counts(tensors, entries), p)
  }

  /** "tokenizer.ggml." */
  const TOKENIZER: Bytes :=
    [0x74, 0x6F, 0x6B, 0x65, 0x6E, 0x69, 0x7A, 0x65, 0x72, 0x2E, 0x67, 0x67, 0x6D, 0x6C, 0x2E]

  /** The value of one metadata entry as read_metadata keeps it: tokenizer arrays only by their length. */
  function ReadEntryValue(data: Bytes, pos: nat, key: Bytes, vtype: nat, keep: nat): (r: Parsed<Value>)
    requires pos <= |data|
    ensures r.Ok? ==> pos <= r.pos <= |data|
  {
    if TOKENIZER <= key && vtype == ARRAY then
      match ReadNumber(data, pos, 4)
      case Bad => Bad
      case Ok(etype, p4) =>
        match ReadNumber(data, p4, 8)
        case Bad => Bad
        case Ok(count, p12) =>
          match SkipElems(data, p12, etype, count)
          case Bad => Bad
          case Ok(_, p) => Ok(Length(count), p)
    else ReadValue(data, pos, vtype, keep)
  }

  function ReadEntry(data: Bytes, pos: nat, keep: nat): (r: Parsed<(Bytes, Value)>)
    requires pos <= |data|
    ensures r.Ok? ==> pos <= r.pos <= |data|
  {
    match ReadText(data, pos)
    case Bad => Bad
    case Ok(key, p) =>
      match ReadNumber(data, p, 4)
      case Bad => Bad
      case Ok(vtype, p4) =>
        match ReadEntryValue(data, p4, key, vtype, keep)
        case Bad => Bad
        case Ok(v, q) => Ok((key, v), q)
  }

  function ReadEntries(data: Bytes, pos: nat, count: nat, keep: nat, out: map<Bytes, Value>)
      : (r: Parsed<map<Bytes, Value>>)
    requires pos <= |data|
    decreases count
  {
    if count == 0 then Ok(out, pos)
    else
      match ReadEntry(data, pos, keep)
      case Bad => Bad
      case Ok(kv, q) => ReadEntries(data, q, count - 1, keep, out[kv.0 := kv.1])
  }

  /** read_metadata */
  function ReadMetadata(data: Bytes, keep: nat): Parsed<map<Bytes, Value>> {
    match ReadPreamble(data)
    case Bad => Bad
    case Ok(c, p) => ReadEntries(data, p, c.entries, keep, map[])
  }

  function SkipEntry(data: Bytes, pos: nat): (r: Parsed<()>)
    requires pos <= |data|
    ensures r.Ok? ==> pos <= r.pos <= |data|
  {
    match ReadText(data, pos)
    case Bad => Bad
    case Ok(_, p) =>
      match ReadNumber(data, p, 4)
      case Bad => Bad
      case Ok(vtype, p4) => SkipValue(data, p4, vtype)
  }

  function SkipEntries(data: Bytes, pos: nat, count: nat): (r: Parsed<()>)
    requires pos <= |data|
    ensures r.Ok? ==> pos <= r.pos <= |data|
    decreases count
  {
    if count == 0 then Ok((), pos)
    else
      match SkipEntry(data, pos)
      case Bad => Bad
      case Ok(_, q) => SkipEntries(data, q, count - 1)
  }

  function DimsAt(data: Bytes, pos: nat, n: nat): seq<nat>
    requires pos + 8 * n <= |data|
  {
    seq(n, i requires 0 <= i < n => NumberAt(data, pos + 8 * i, 8))
  }

  function ReadTensor(data: Bytes, pos: nat): (r: Parsed<TensorInfo>)
    requires pos <= |data|
    ensures r.Ok? ==> pos <= r.pos <= |data|
  {
    match ReadText(data, pos)
    case Bad => Bad
    case Ok(name, p) =>
      match ReadNumber(data, p, 4)
      case Bad => Bad
      case Ok(nd, p4) =>
        if p4 + 8 * nd > |data| then Bad
        else
          var pd := p4 + 8 * nd;
          match ReadNumber(data, pd, 4)
          case Bad => Bad
          case Ok(gtype, pg) =>
            match ReadNumber(data, pg, 8)
            case Bad => Bad
            case Ok(off, po) => Ok(TensorInfo(name, DimsAt(data, p4, nd), gtype, off), po)
  }

  function ReadTensors(data: Bytes, pos: nat, count: nat, infos: seq<TensorInfo>): Parsed<seq<TensorInfo>>
    requires pos <= |data|
    decreases count
  {
    if count == 0 then Ok(infos, pos)
    else
      match ReadTensor(data, pos)
      case Bad => Bad
      case Ok(t, p) => ReadTensors(data, p, count - 1, infos + [t])
  }

  /** read_tensor_infos */
  function ReadTensorInfos(data: Bytes): Parsed<seq<TensorInfo>> {
    match ReadPreamble(data)
    case Bad => Bad
    case Ok(c, p) =>
      match SkipEntries(data, p, c.entries)
      case Bad => Bad
      case Ok(_, q) => ReadTensors(data, q, c.tensors, [])
  }
}
