// The arena-holder wire protocol: constants, message layout and replies of
// src/core/memory/arena_ipc_protocol.h, on little-endian bytes.
module ArenaProtocol {
  import opened LittleEndian

  type Bytes = LittleEndian.Bytes

  /** A descriptor number of one process. The kernel hands out natural numbers; -1 means "none". */
  type Fd = int

  const MAGIC := 0x4C534148
  const PROTOCOL_VERSION := 1
  const MAX_SEGMENTS := 64

  const HEADER_BYTES := 16   // sizeof(MsgHeader)
  const SEGMENT_BYTES := 16  // sizeof(SegmentDesc)
  const WIPE_BYTES := 260    // sizeof(WipeRequest): u32 reason, char detail[256]
  const MAX_WIPE_DETAIL := 256

  const ATTACH := 1
  const STORE := 2
  const DETACH := 3
  const WIPE := 4

  const UNSPECIFIED := 0
  const IDENTITY_MISMATCH := 1
  const OPERATOR_REQUEST := 2

  type U32 = x: int | 0 <= x < 0x1_0000_0000

  /** The client's message header. */
  datatype Header = Header(magic: U32, version: U32, kind: U32, payloadBytes: U32)

  /**
   * What a receive on a connection yields: a datagram with the descriptors it
   * carried, or n <= 0. That is the end of the connection or an error, with no
   * descriptors, or an empty datagram, whose descriptors the kernel has
   * installed all the same.
   */
  datatype Received = NoBytes(fds: seq<Fd>) | Datagram(data: Bytes, fds: seq<Fd>)

  const EOF := NoBytes([])

  /** What the holder answers. A warm attach carries the stored blob; its descriptors ride beside it. */
  datatype Reply = AttachEmpty | AttachWarm(numFds: nat, payload: Bytes) | AttachBusy | StoreOk | StoreError

  function U32At(b: Bytes, off: nat): U32
    requires off + 4 <= |b|
  {
    NumberBound(b[off..off + 4]);
    Powers();
    NumberAt(b, off, 4)
  }

  function U32Bytes(v: U32): (b: Bytes)
    ensures |b| == 4
  {
    Digits(v, 4)
  }

  lemma U32RoundTrip(v: U32, pre: Bytes, post: Bytes)
    ensures U32At(pre + U32Bytes(v) + post, |pre|) == v
  {
    Powers();
    NumberAtDigits(v, 4, pre, post);
  }

  function ParseHeader(b: Bytes): Header
    requires |b| >= HEADER_BYTES
  {
    Header(U32At(b, 0), U32At(b, 4), U32At(b, 8), U32At(b, 12))
  }

  function EncodeHeader(h: Header): (b: Bytes)
    ensures |b| == HEADER_BYTES
  {
    U32Bytes(h.magic) + U32Bytes(h.version) + U32Bytes(h.kind) + U32Bytes(h.payloadBytes)
  }

  lemma HeaderRoundTrip(h: Header, payload: Bytes)
    ensures ParseHeader(EncodeHeader(h) + payload) == h
  {
    var a, b, c, d := U32Bytes(h.magic), U32Bytes(h.version), U32Bytes(h.kind), U32Bytes(h.payloadBytes);
    var m := EncodeHeader(h) + payload;
    assert m == [] + a + (b + c + d + payload);
    U32RoundTrip(h.magic, [], b + c + d + payload);
    assert m == a + b + (c + d + payload);
    U32RoundTrip(h.version, a, c + d + payload);
    assert m == (a + b) + c + (d + payload);
    U32RoundTrip(h.kind, a + b, d + payload);
    assert m == (a + b + c) + d + payload;
    U32RoundTrip(h.payloadBytes, a + b + c, payload);
  }

  /** Long enough for a header, with this protocol's magic and version. */
  predicate WellHeaded(data: Bytes) {
    |data| >= HEADER_BYTES && ParseHeader(data).magic == MAGIC && ParseHeader(data).version == PROTOCOL_VERSION
  }

  predicate IsKind(data: Bytes, kind: U32) {
    WellHeaded(data) && ParseHeader(data).kind == kind
  }

  predicate WipeReasonHonored(reason: U32) {
    reason == IDENTITY_MISMATCH || reason == OPERATOR_REQUEST
  }

  /** A wipe whose payload is not exactly one WipeRequest reads as "unspecified". */
  function WipeReasonOf(data: Bytes): U32
    requires |data| >= HEADER_BYTES
  {
    if ParseHeader(data).payloadBytes == WIPE_BYTES && HEADER_BYTES + WIPE_BYTES == |data|
    then U32At(data, HEADER_BYTES)
    else UNSPECIFIED
  }

  function Bare(kind: U32): (b: Bytes)
    ensures |b| == HEADER_BYTES && IsKind(b, kind) && ParseHeader(b).payloadBytes == 0
  {
    var h := Header(MAGIC, PROTOCOL_VERSION, kind, 0);
    HeaderRoundTrip(h, []);
    assert EncodeHeader(h) + [] == EncodeHeader(h);
    EncodeHeader(h)
  }

  /** The detail bytes of a wipe request. */
  function WipeDetailOf(data: Bytes): Bytes
    requires |data| == HEADER_BYTES + WIPE_BYTES
  {
    data[HEADER_BYTES + 4..]
  }

  /** A reasoned wipe of exactly one request; detail is cut to, or zero-padded up to, 256 bytes. */
  function WipeMessage(reason: U32, detail: Bytes): (b: Bytes)
    ensures IsKind(b, WIPE) && WipeReasonOf(b) == reason
    ensures |b| == HEADER_BYTES + WIPE_BYTES && ParseHeader(b).payloadBytes == WIPE_BYTES
    ensures |detail| <= MAX_WIPE_DETAIL ==> detail <= WipeDetailOf(b)
    ensures |detail| > MAX_WIPE_DETAIL ==> WipeDetailOf(b) == detail[..MAX_WIPE_DETAIL]
    ensures forall i :: |detail| <= i < MAX_WIPE_DETAIL ==> WipeDetailOf(b)[i] == 0
  {
    var h := Header(MAGIC, PROTOCOL_VERSION, WIPE, WIPE_BYTES);
    var cut := if |detail| < MAX_WIPE_DETAIL then detail else detail[..MAX_WIPE_DETAIL];
    var body := cut + seq(MAX_WIPE_DETAIL - |cut|, _ => 0);
    assert WipeDetailOf(EncodeHeader(h) + U32Bytes(reason) + body) == body;
    HeaderRoundTrip(h, U32Bytes(reason) + body);
    assert EncodeHeader(h) + (U32Bytes(reason) + body) == EncodeHeader(h) + U32Bytes(reason) + body;
    U32RoundTrip(reason, EncodeHeader(h), body);
    EncodeHeader(h) + U32Bytes(reason) + body
  }
}
