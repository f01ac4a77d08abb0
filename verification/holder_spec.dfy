// The arena holder as a transition system: what one message does to the
// holder's state and to its descriptor table (tools/arena_holder.cpp).
module HolderSpec {
  import opened Options
  import opened ArenaProtocol
  import opened FdKernel

  const MAX_CONNS := 16
  const NONE: Fd := -1

  /** Stored descriptors and blob, the attached connection (or NONE), all live connections. */
  datatype State = State(fds: seq<Fd>, payload: Bytes, attached: Fd, conns: seq<Fd>)

  /** keep == false asks the poll loop to close the connection. */
  datatype Outcome = Outcome(st: State, keep: bool, actions: seq<Action>, reply: Option<Reply>)

  const START := State([], [], NONE, [])

  /** The store handler's sanity test. */
  predicate Sane(st: State, conn: Fd, data: Bytes, fds: seq<Fd>)
    requires |data| >= HEADER_BYTES
  {
    var payload := ParseHeader(data).payloadBytes;
    conn == st.attached && |fds| >= 1 && |fds| <= MAX_SEGMENTS + 1
    && payload == (|fds| - 1) * SEGMENT_BYTES && HEADER_BYTES + payload == |data|
  }

  function HandleAttach(st: State, conn: Fd, fds: seq<Fd>): Outcome {
    if st.attached >= 0 && st.attached != conn then
      Outcome(st, false, Closing(fds) + [Sent(conn, AttachBusy, [])], Some(AttachBusy))
    else if st.fds == [] then
      Outcome(st.(attached := conn), true, Closing(fds) + [Sent(conn, AttachEmpty, [])], Some(AttachEmpty))
    else
      var warm := AttachWarm(|st.fds|, st.payload);
      Outcome(st.(attached := conn), true, Closing(fds) + [Sent(conn, warm, st.fds)], Some(warm))
  }

  function HandleStore(st: State, conn: Fd, data: Bytes, fds: seq<Fd>): Outcome
    requires |data| >= HEADER_BYTES
  {
    if Sane(st, conn, data, fds) then
      Outcome(st.(fds := fds, payload := data[HEADER_BYTES..]), true,
              Closing(st.fds) + [Sent(conn, StoreOk, [])], Some(StoreOk))
    else
      Outcome(st, conn == st.attached, Closing(fds) + [Sent(conn, StoreError, [])], Some(StoreError))
  }

  function HandleWipe(st: State, conn: Fd, data: Bytes, fds: seq<Fd>): Outcome
    requires |data| >= HEADER_BYTES
  {
    if conn != st.attached || !WipeReasonHonored(WipeReasonOf(data)) then
      Outcome(st, true, Closing(fds) + [Sent(conn, StoreError, [])], Some(StoreError))
    else
      Outcome(st.(fds := [], payload := []), true,
              Closing(fds) + Closing(st.fds) + [Sent(conn, StoreOk, [])], Some(StoreOk))
  }

  /** One received message, after the receive itself. */
  function Handle(st: State, conn: Fd, msg: Received): Outcome {
    match msg
    case NoBytes(_) => Outcome(st, false, [], None)
    case Datagram(data, fds) =>
      if IsKind(data, ATTACH) then HandleAttach(st, conn, fds)
      else if IsKind(data, STORE) then HandleStore(st, conn, data, fds)
      else if IsKind(data, WIPE) then HandleWipe(st, conn, data, fds)
      else Outcome(st, false, Closing(fds), None)
  }

  // ---- events and runs ------------------------------------------------------

  datatype Event = Accept(conn: Fd) | Deliver(conn: Fd, msg: Received)

  function Index(s: seq<Fd>, f: Fd): (i: nat)
    requires f in s
    ensures i < |s| && s[i] == f && f !in s[..i]
  {
    if s[0] == f then 0 else 1 + Index(s[1..], f)
  }

  /** vector::erase(find(..)): the first occurrence goes. That f occurs is HolderRuns.LiveAtClose. */
  function Without(s: seq<Fd>, f: Fd): seq<Fd> {
    if f in s then s[..Index(s, f)] + s[Index(s, f) + 1..] else s
  }

  function Drop(st: State, conn: Fd): State {
    st.(conns := Without(st.conns, conn), attached := if conn == st.attached then NONE else st.attached)
  }

  function Receiving(e: Event): seq<Action>
    requires e.Deliver?
  {
    [Read(e.conn)] + Opening(e.msg.fds)
  }

  function Step(st: State, e: Event): State {
    match e
    case Accept(c) => if |st.conns| >= MAX_CONNS then st else st.(conns := st.conns + [c])
    case Deliver(c, msg) =>
      var o := Handle(st, c, msg);
      if o.keep then o.st else Drop(o.st, c)
  }

  /** What the step does to the descriptor table, in order. */
  function Actions(st: State, e: Event): seq<Action> {
    match e
    case Accept(c) => [Opened(c)] + if |st.conns| >= MAX_CONNS then [Closed(c)] else []
    case Deliver(c, msg) =>
      var o := Handle(st, c, msg);
      Receiving(e) + o.actions + if o.keep then [] else [Closed(c)]
  }

  /** What the kernel guarantees of an event: messages come on live connections, new numbers are free. */
  ghost predicate Possible(st: State, open: set<Fd>, e: Event) {
    match e
    case Accept(c) => c >= 0 && c !in open
    case Deliver(c, msg) =>
      c in st.conns && Distinct(msg.fds) && Elements(msg.fds) !! open && forall f <- msg.fds :: f >= 0
  }

  /** A state together with the log of everything done to the descriptor table so far. */
  datatype World = World(st: State, log: seq<Action>)

  /** The world after evs, from a start where only the listening socket is open. */
  ghost function Reach(srv: Fd, evs: seq<Event>): World {
    if evs == [] then World(START, [Opened(srv)])
    else
      var w, e := Reach(srv, evs[..|evs| - 1]), evs[|evs| - 1];
      World(Step(w.st, e), w.log + Actions(w.st, e))
  }

  ghost function StateAt(srv: Fd, evs: seq<Event>, i: nat): State
    requires i <= |evs|
  {
    Reach(srv, evs[..i]).st
  }

  /** Could the kernel have let evs happen, one after the other? */
  ghost predicate Run(srv: Fd, evs: seq<Event>) {
    if evs == [] then srv >= 0
    else
      var before := evs[..|evs| - 1];
      var w := Reach(srv, before);
      Run(srv, before) && Possible(w.st, After({}, w.log), evs[|evs| - 1])
  }
}
