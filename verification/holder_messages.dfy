// The holder's answers byte by byte: for every datagram, from its bytes and
// descriptors alone, what it does and what is answered (tools/arena_holder.cpp
// on the layout of src/core/memory/arena_ipc_protocol.h).
module HolderMessages {
  import opened Options
  import opened LittleEndian
  import opened ArenaProtocol
  import opened FdKernel
  import opened HolderSpec
  import opened HolderRuns

  /** A 32-bit field as it stands in memory, low byte first. */
  function Field(v: U32): (b: Bytes)
    ensures |b| == 4
  {
    [v % 256, v / 0x100 % 256, v / 0x1_0000 % 256, v / 0x100_0000]
  }

  lemma FieldIsDigits(v: U32)
    ensures Field(v) == U32Bytes(v)
  {
    assert Digits(v, 4) == [v % 256] + Digits(v / 256, 3);
    assert Digits(v / 256, 3) == [v / 256 % 256] + Digits(v / 256 / 256, 2);
    assert Digits(v / 256 / 256, 2) == [v / 256 / 256 % 256] + Digits(v / 256 / 256 / 256, 1);
    assert Digits(v / 256 / 256 / 256, 1) == [v / 256 / 256 / 256 % 256] + [];
  }

  /** The letters of the magic number as they stand in memory, and protocol version 1. */
  const PREFIX: Bytes := [0x48, 0x41, 0x53, 0x4C, 1, 0, 0, 0]

  /** A client's datagram: prefix, kind, length field, payload. */
  function Message(kind: U32, length: U32, body: Bytes): (b: Bytes)
    ensures |b| == 16 + |body|
  {
    PREFIX + Field(kind) + Field(length) + body
  }

  /** It is the encoded header in front of the payload, and parses back. */
  lemma MessageParses(kind: U32, length: U32, body: Bytes)
    ensures var m := Message(kind, length, body);
      && m == EncodeHeader(Header(0x4C53_4148, 1, kind, length)) + body
      && ParseHeader(m) == Header(0x4C53_4148, 1, kind, length) && m[16..] == body && m[..8] == PREFIX
  {
    var h := Header(0x4C53_4148, 1, kind, length);
    FieldIsDigits(0x4C53_4148);
    FieldIsDigits(1);
    FieldIsDigits(kind);
    FieldIsDigits(length);
    PrefixFields();
    assert Message(kind, length, body) == EncodeHeader(h) + body;
    HeaderRoundTrip(h, body);
  }

  /** Every datagram with the prefix and room for a header is such a message. */
  lemma EveryMessage(data: Bytes)
    requires |data| >= 16 && data[..8] == PREFIX
    ensures data == Message(U32At(data, 8), U32At(data, 12), data[16..])
  {
    var a, b := data[8..12], data[12..16];
    SpeltDigits(a);
    SpeltDigits(b);
    FieldIsDigits(U32At(data, 8));
    FieldIsDigits(U32At(data, 12));
    assert data == data[..8] + a + b + data[16..];
  }

  /** The first eight bytes decide whether a message is the protocol's. */
  lemma PrefixDecides(data: Bytes)
    requires |data| >= 16
    ensures WellHeaded(data) <==> data[..8] == PREFIX
  {
    if data[..8] == PREFIX {
      EveryMessage(data);
      MessageParses(U32At(data, 8), U32At(data, 12), data[16..]);
    } else if WellHeaded(data) {
      StartsWithPrefix(data);
    }
  }

  lemma PrefixFields()
    ensures PREFIX == Field(0x4C53_4148) + Field(1)
  {
  }

  lemma StartsWithPrefix(data: Bytes)
    requires |data| >= 16 && U32At(data, 0) == 0x4C53_4148 && U32At(data, 4) == 1
    ensures data[..8] == PREFIX
  {
    FieldThere(data, 0, 0x4C53_4148);
    FieldThere(data, 4, 1);
    PrefixFields();
    assert data[..8] == data[0..4] + data[4..8];
  }

  lemma FieldThere(data: Bytes, off: nat, v: U32)
    requires off + 4 <= |data| && U32At(data, off) == v
    ensures data[off..off + 4] == Field(v)
  {
    SpeltDigits(data[off..off + 4]);
    FieldIsDigits(v);
  }

  function Answered(st: State, keep: bool, conn: Fd, closed: seq<Fd>, reply: Reply, passed: seq<Fd>): Outcome {
    Outcome(st, keep, Closing(closed) + [Sent(conn, reply, passed)], Some(reply))
  }

  /**
   * A store is accepted exactly when the attached connection sends, for some n
   * up to 64, n descriptions of 16 bytes and n + 1 descriptors. Then these are
   * the store and the old ones are closed; else its own are closed, nothing
   * changes, and only the attached connection stays.
   */
  lemma StoreExactly(st: State, conn: Fd, length: U32, body: Bytes, fds: seq<Fd>)
    ensures Handle(st, conn, Datagram(Message(2, length, body), fds)) ==
      if conn == st.attached && exists n: nat :: n <= 64 && |fds| == n + 1 && |body| == length == 16 * n
      then Answered(st.(fds := fds, payload := body), true, conn, st.fds, StoreOk, [])
      else Answered(st, conn == st.attached, conn, fds, StoreError, [])
  {
    MessageParses(2, length, body);
    var n := |fds| - 1;
    assert 0 <= n <= 64 && |body| == length == 16 * n ==>
      exists k: nat :: k <= 64 && |fds| == k + 1 && |body| == length == 16 * k;
  }

  /** An honest store of any size goes through. */
  lemma StoreGoesThrough(st: State, conn: Fd, n: nat, body: Bytes, fds: seq<Fd>)
    requires conn == st.attached && n <= 64 && |body| == 16 * n && |fds| == n + 1
    ensures var o := Handle(st, conn, Datagram(Message(2, 16 * n, body), fds));
      o.keep && o.reply == Some(StoreOk) && o.st == State(fds, body, st.attached, st.conns)
  {
    StoreExactly(st, conn, 16 * n, body, fds);
  }

  /**
   * A wipe is honored exactly when the attached connection sends one request of
   * 260 bytes that starts with reason 1 or 2. Then the store is emptied; else
   * it stays. The connection stays in any case.
   */
  lemma WipeExactly(st: State, conn: Fd, length: U32, body: Bytes, fds: seq<Fd>)
    ensures Handle(st, conn, Datagram(Message(4, length, body), fds)) ==
      if conn == st.attached && |body| == length == 260 && (body[..4] == [1, 0, 0, 0] || body[..4] == [2, 0, 0, 0])
      then Outcome(State([], [], st.attached, st.conns), true,
                   Closing(fds) + Closing(st.fds) + [Sent(conn, StoreOk, [])], Some(StoreOk))
      else Answered(st, true, conn, fds, StoreError, [])
  {
    var m := Message(4, length, body);
    MessageParses(4, length, body);
    if |body| == length == 260 {
      assert m[16..20] == body[..4];
      ReasonBytes(body[..4]);
    }
  }

  lemma NumberIsField(b: Bytes, v: U32)
    requires |b| == 4
    ensures Number(b) == v <==> b == Field(v)
  {
    SpeltDigits(b);
    FieldIsDigits(v);
    Powers();
    DigitsSpell(v, 4);
  }

  lemma ReasonBytes(b: Bytes)
    requires |b| == 4
    ensures Number(b) == 1 <==> b == [1, 0, 0, 0]
    ensures Number(b) == 2 <==> b == [2, 0, 0, 0]
  {
    NumberIsField(b, 1);
    NumberIsField(b, 2);
    assert Field(1) == [1, 0, 0, 0] && Field(2) == [2, 0, 0, 0];
  }

  /** An attach, whatever rides with it: busy when someone else is attached, else granted with what is stored. */
  lemma AttachExactly(st: State, conn: Fd, length: U32, body: Bytes, fds: seq<Fd>)
    ensures Handle(st, conn, Datagram(Message(1, length, body), fds)) ==
      if st.attached >= 0 && st.attached != conn then Answered(st, false, conn, fds, AttachBusy, [])
      else
        Answered(State(st.fds, st.payload, conn, st.conns), true, conn, fds,
                 if st.fds == [] then AttachEmpty else AttachWarm(|st.fds|, st.payload), st.fds)
  {
    MessageParses(1, length, body);
  }

  /** Any other kind, a detach among them, ends the connection without an answer. */
  lemma OtherKindExactly(st: State, conn: Fd, kind: U32, length: U32, body: Bytes, fds: seq<Fd>)
    requires kind !in {1, 2, 4}
    ensures Handle(st, conn, Datagram(Message(kind, length, body), fds)) == Outcome(st, false, Closing(fds), None)
  {
    MessageParses(kind, length, body);
  }

  /** And so does what is no message of the protocol. */
  lemma ForeignExactly(st: State, conn: Fd, data: Bytes, fds: seq<Fd>)
    requires |data| < 16 || data[..8] != PREFIX
    ensures Handle(st, conn, Datagram(data, fds)) == Outcome(st, false, Closing(fds), None)
  {
    if |data| >= 16 {
      PrefixDecides(data);
    }
  }

  /** Sixteen connections are served at a time; one more is closed unserved. */
  lemma AcceptExactly(st: State, conn: Fd)
    ensures Step(st, Accept(conn)) == st.(conns := if |st.conns| < 16 then st.conns + [conn] else st.conns)
    ensures Actions(st, Accept(conn)) == if |st.conns| < 16 then [Opened(conn)] else [Opened(conn), Closed(conn)]
  {
  }

  /** The operator's wipe request, byte by byte: reason 2, then the text, cut to or filled up to 256 bytes. */
  lemma WipeBytes(detail: Bytes, pad: Bytes)
    requires |detail| <= 256 && |pad| == 256 - |detail| && forall i :: 0 <= i < |pad| ==> pad[i] == 0
    ensures WipeMessage(OPERATOR_REQUEST, detail) == Message(4, 260, [2, 0, 0, 0] + detail + pad)
  {
    FieldIsDigits(2);
    assert Field(2) == [2, 0, 0, 0];
    assert pad == seq(256 - |detail|, _ => 0);
    assert |detail| == 256 ==> detail[..256] == detail;
    WipeParts(detail, pad);
    var h := EncodeHeader(Header(0x4C53_4148, 1, 4, 260));
    assert h + U32Bytes(2) + (detail + pad) == h + ([2, 0, 0, 0] + detail + pad);
    MessageParses(4, 260, [2, 0, 0, 0] + detail + pad);
  }

  lemma WipeParts(detail: Bytes, pad: Bytes)
    requires |detail| <= 256 && pad == seq(256 - |detail|, _ => 0)
    ensures WipeMessage(OPERATOR_REQUEST, detail)
      == EncodeHeader(Header(0x4C53_4148, 1, 4, 260)) + U32Bytes(2) + (detail + pad)
  {
    assert detail[..|detail|] == detail;
  }

  // ---- what the runs are about ----------------------------------------------------

  /** The stores that HolderRuns counts as accepted are those of StoreExactly. */
  lemma AcceptedExactly(st: State, conn: Fd, kind: U32, length: U32, body: Bytes, fds: seq<Fd>)
    ensures AcceptedStore(st, Deliver(conn, Datagram(Message(kind, length, body), fds))) <==>
      kind == 2 && conn == st.attached && exists n: nat :: n <= 64 && |fds| == n + 1 && |body| == length == 16 * n
    ensures ContentOf(Deliver(conn, Datagram(Message(kind, length, body), fds))) == (fds, body)
  {
    MessageParses(kind, length, body);
    var n := |fds| - 1;
    assert 0 <= n <= 64 && |body| == length == 16 * n ==>
      exists k: nat :: k <= 64 && |fds| == k + 1 && |body| == length == 16 * k;
  }

  /** And the wipes it counts as honored are those of WipeExactly. */
  lemma HonoredExactly(st: State, conn: Fd, kind: U32, length: U32, body: Bytes, fds: seq<Fd>)
    ensures HonoredWipe(st, Deliver(conn, Datagram(Message(kind, length, body), fds))) <==>
      && kind == 4 && conn == st.attached && |body| == length == 260
      && (body[..4] == [1, 0, 0, 0] || body[..4] == [2, 0, 0, 0])
  {
    var m := Message(kind, length, body);
    MessageParses(kind, length, body);
    if |body| == length == 260 {
      assert m[16..20] == body[..4];
      ReasonBytes(body[..4]);
    }
  }
}
