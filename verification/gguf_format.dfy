// The GGUF header layout: magic, version, counts, metadata, tensor
// descriptors (ggml docs/gguf.md, section "File Structure").
module GgufFormat {
  import opened LittleEndian

  const STRING := 8
  const ARRAY := 9

  /** One metadata value: a scalar of its raw bytes, a string, or an array, nested to any depth. */
  datatype Tree =
    | Scalar(vtype: nat, raw: Bytes)
    | Text(raw: Bytes)
    | Array(etype: nat, elems: seq<Tree>)

  datatype Entry = Entry(key: Bytes, value: Tree)
  datatype TensorInfo = TensorInfo(name: Bytes, dims: seq<nat>, ggufType: nat, offset: nat)
  datatype Header = Header(version: nat, metadata: seq<Entry>, tensors: seq<TensorInfo>)

  /** Bytes of a scalar of this type; 0 for every type that is not a scalar. */
  function ScalarSize(vtype: nat): nat {
    if vtype in {0, 1, 7} then 1
    else if vtype in {2, 3} then 2
    else if vtype in {4, 5, 6} then 4
    else if vtype in {10, 11, 12} then 8
    else 0
  }

  function TypeOf(t: Tree): nat {
    match t
    case Scalar(vtype, _) => vtype
    case Text(_) => STRING
    case Array(_, _) => ARRAY
  }

  ghost predicate WellFormed(t: Tree) {
    match t
    case Scalar(vtype, raw) => ScalarSize(vtype) > 0 && |raw| == ScalarSize(vtype)
    case Text(raw) => |raw| < U64_LIMIT
    case Array(etype, elems) =>
      etype < U32_LIMIT && |elems| < U64_LIMIT
      && forall e <- elems :: TypeOf(e) == etype && WellFormed(e)
  }

  function EncodeText(s: Bytes): Bytes {
    Digits(|s|, 8) + s
  }

  function Encode(t: Tree): Bytes
    decreases t, 1
  {
    match t
    case Scalar(_, raw) => raw
    case Text(raw) => EncodeText(raw)
    case Array(etype, elems) => Digits(etype, 4) + Digits(|elems|, 8) + EncodeAll(elems)
  }

  function EncodeAll(s: seq<Tree>): Bytes
    decreases s, 0
  {
    if s == [] then [] else Encode(s[0]) + EncodeAll(s[1..])
  }

  function EncodeEntry(e: Entry): Bytes {
    EncodeText(e.key) + Digits(TypeOf(e.value), 4) + Encode(e.value)
  }

  function EncodeMetadata(s: seq<Entry>): Bytes {
    if s == [] then [] else EncodeEntry(s[0]) + EncodeMetadata(s[1..])
  }

  function EncodeDims(dims: seq<nat>): (b: Bytes)
    ensures |b| == 8 * |dims|
  {
    if dims == [] then [] else Digits(dims[0], 8) + EncodeDims(dims[1..])
  }

  function EncodeTensor(t: TensorInfo): Bytes {
    EncodeText(t.name) + Digits(|t.dims|, 4) + EncodeDims(t.dims) + Digits(t.ggufType, 4) + Digits(t.offset, 8)
  }

  function EncodeTensors(s: seq<TensorInfo>): Bytes {
    if s == [] then [] else EncodeTensor(s[0]) + EncodeTensors(s[1..])
  }

  /** "GGUF" */
  const MAGIC: Bytes := [0x47, 0x47, 0x55, 0x46]

  function EncodeHeader(h: Header): Bytes {
    MAGIC + Digits(h.version, 4) + Digits(|h.tensors|, 8) + Digits(|h.metadata|, 8)
    + EncodeMetadata(h.metadata) + EncodeTensors(h.tensors)
  }

  ghost predicate WellFormedEntry(e: Entry) {
    |e.key| < U64_LIMIT && WellFormed(e.value)
  }

  ghost predicate WellFormedTensor(t: TensorInfo) {
    |t.name| < U64_LIMIT && |t.dims| < U32_LIMIT && t.ggufType < U32_LIMIT && t.offset < U64_LIMIT
    && forall d <- t.dims :: d < U64_LIMIT
  }

  ghost predicate WellFormedHeader(h: Header) {
    2 <= h.version < U32_LIMIT && |h.metadata| < U64_LIMIT && |h.tensors| < U64_LIMIT
    && (forall e <- h.metadata :: WellFormedEntry(e)) && (forall t <- h.tensors :: WellFormedTensor(t))
  }
}
