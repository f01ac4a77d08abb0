// The arena holder itself: the message handler, the accept path and one round
// of the poll loop, updating the holder's fields in place. Valid() says that
// the fields and the descriptor table are what the run of events so far makes
// of them, so everything HolderRuns proves of runs holds of every holder.
module ArenaHolder {
  import opened Options
  import opened ArenaProtocol
  import opened FdKernel
  import opened HolderSpec
  import opened HolderRuns

  lemma RunExtend(srv: Fd, evs: seq<Event>, e: Event)
    requires Run(srv, evs) && Possible(Reach(srv, evs).st, After({}, Reach(srv, evs).log), e)
    ensures var w := Reach(srv, evs);
      Run(srv, evs + [e]) && Reach(srv, evs + [e]) == World(Step(w.st, e), w.log + Actions(w.st, e))
  {
    assert (evs + [e])[..|evs|] == evs;
  }

  // ---- what one poll round may do -------------------------------------------

  /** The polled connections that poll reports as ready, in order. */
  function Ready(snapshot: seq<Fd>, ready: set<Fd>): seq<Fd> {
    if snapshot == [] then []
    else
      var last := |snapshot| - 1;
      Ready(snapshot[..last], ready) + if snapshot[last] in ready then [snapshot[last]] else []
  }

  /** What a peer sends: no bytes or a datagram, and how many descriptors ride along. */
  datatype Said = Said(empty: bool, data: Bytes, passed: nat)

  /** What was received is what was said, under whatever numbers the descriptors got. */
  ghost predicate Matches(said: Said, msg: Received) {
    |msg.fds| == said.passed && msg == if said.empty then NoBytes(msg.fds) else Datagram(said.data, msg.fds)
  }

  /** One message handled for each of fds, in order, each as its peer said it. */
  ghost predicate Serves(fds: seq<Fd>, says: Fd -> Said, evs: seq<Event>) {
    |evs| == |fds|
    && forall i :: 0 <= i < |fds| ==> evs[i].Deliver? && evs[i].conn == fds[i] && Matches(says(fds[i]), evs[i].msg)
  }

  lemma Associative<T>(a: seq<T>, b: seq<T>, c: seq<T>)
    ensures a + b + c == a + (b + c)
  {
  }

  lemma ServesOneMore(snapshot: seq<Fd>, ready: set<Fd>, says: Fd -> Said, i: nat, handled: seq<Event>, one: seq<Event>)
    requires i < |snapshot| && Serves(Ready(snapshot[..i], ready), says, handled)
    requires Serves(if snapshot[i] in ready then [snapshot[i]] else [], says, one)
    ensures Serves(Ready(snapshot[..i + 1], ready), says, handled + one)
  {
    assert snapshot[..i + 1][..i] == snapshot[..i];
  }

  /** The ready connections are those of the snapshot that poll reports, none twice. */
  lemma {:induction false} ReadyExactly(snapshot: seq<Fd>, ready: set<Fd>)
    ensures forall f :: f in Ready(snapshot, ready) <==> f in snapshot && f in ready
    ensures Distinct(snapshot) ==> Distinct(Ready(snapshot, ready))
    decreases |snapshot|
  {
    if snapshot != [] {
      var last := |snapshot| - 1;
      ReadyExactly(snapshot[..last], ready);
      assert snapshot == snapshot[..last] + [snapshot[last]];
      assert Distinct(snapshot) ==> snapshot[last] !in snapshot[..last];
    }
  }

  /** So in a round without an accept every ready connection is served, once, and nobody else. */
  lemma ReadyAreServed(snapshot: seq<Fd>, ready: set<Fd>, says: Fd -> Said, evs: seq<Event>, f: Fd)
    requires Distinct(snapshot) && IsRound(snapshot, ready, says, None, evs)
    ensures f in snapshot && f in ready <==> exists i :: 0 <= i < |evs| && evs[i].conn == f
    ensures forall i, j :: 0 <= i < j < |evs| ==> evs[i].conn != evs[j].conn
  {
    var served := Ready(snapshot, ready);
    ReadyExactly(snapshot, ready);
    if f in served {
      var i :| 0 <= i < |served| && served[i] == f;
      assert evs[i].conn == f;
    }
    assert forall i :: 0 <= i < |evs| ==> evs[i].conn == served[i] && served[i] in served;
  }

  /** An accept if there was one, then one message of every ready connection that was live when the round began. */
  ghost predicate IsRound(snapshot: seq<Fd>, ready: set<Fd>, says: Fd -> Said, accepted: Option<Fd>, evs: seq<Event>) {
    match accepted
    case None => Serves(Ready(snapshot, ready), says, evs)
    case Some(c) => evs != [] && evs[0] == Accept(c) && Serves(Ready(snapshot, ready), says, evs[1..])
  }

  class Holder {
    const kernel: Kernel
    const srv: Fd
    var fds: seq<Fd>
    var payload: Bytes
    var attached: Fd
    var conns: seq<Fd>
    ghost var events: seq<Event>
    ghost var strays: set<Fd>

    ghost function View(): State
      reads this
    {
      State(fds, payload, attached, conns)
    }

    ghost predicate Valid()
      reads this, kernel
    {
      && kernel.Valid() && Run(srv, events) && Reach(srv, events) == World(View(), kernel.log)
      && strays == StraysOf(events)
    }

    /** The process has dropped everything it inherited; it opens its listening socket. */
    constructor (k: Kernel, listener: Fd)
      requires k.Valid() && k.log == [] && listener >= 0
      modifies k
      ensures Valid() && kernel == k && srv == listener && View() == START && events == []
    {
      kernel, srv := k, listener;
      fds, payload, attached, conns := [], [], NONE, [];
      events, strays := [], {};
      new;
      k.Open(listener);
    }

    lemma Owns()
      requires Valid()
      ensures Inv(srv, View()) && strays !! Owned(srv, View()) && kernel.open == Owned(srv, View()) + strays
    {
      Ownership(srv, events);
    }

    method AcceptConnection(conn: Fd)
      requires Valid() && conn >= 0 && conn !in kernel.open
      modifies this, kernel
      ensures Valid() && events == old(events) + [Accept(conn)]
      ensures View() == Step(old(View()), Accept(conn))
    {
      kernel.Open(conn);
      if |conns| >= MAX_CONNS {
        kernel.Close(conn);
      } else {
        conns := conns + [conn];
      }
      RunExtend(srv, events, Accept(conn));
      events := events + [Accept(conn)];
    }

    /** Received descriptors are open beside everything the holder owns, and beside the strays. */
    ghost predicate Holding(received: seq<Fd>)
      reads this, kernel
    {
      && kernel.Valid() && Inv(srv, View()) && Distinct(received)
      && Owned(srv, View()) !! Elements(received) !! strays
      && kernel.open == Owned(srv, View()) + Elements(received) + strays
    }

    /** handle_msg; keep == false asks the caller to close conn. sent is the reply, if any. */
    method HandleMsg(conn: Fd, msg: Received) returns (keep: bool, sent: Option<Reply>)
      requires Holding([]) && conn in conns
      requires Distinct(msg.fds) && Elements(msg.fds) !! kernel.open
      modifies this, kernel
      ensures Holding([]) && events == old(events) && strays == old(strays) + Strays(Deliver(conn, msg))
      ensures var o := Handle(old(View()), conn, msg);
        && View() == o.st && keep == o.keep && sent == o.reply
        && kernel.log == old(kernel.log) + Receiving(Deliver(conn, msg)) + o.actions
    {
      kernel.Recv(conn, msg);
      match msg
      case NoBytes(unseen) =>
        Overlook(unseen);
        assert kernel.log + [] == kernel.log;
        return false, None;
      case Datagram(data, received) =>
        keep, sent := HandleDatagram(conn, data, received);
    }

    /** The descriptors of a datagram without bytes stay open and unknown. */
    ghost method Overlook(unseen: seq<Fd>)
      requires Holding(unseen)
      modifies this`strays
      ensures Holding([]) && strays == old(strays) + Elements(unseen)
    {
      strays := strays + Elements(unseen);
    }

    method HandleDatagram(conn: Fd, data: Bytes, received: seq<Fd>) returns (keep: bool, sent: Option<Reply>)
      requires Holding(received) && conn in conns
      modifies this, kernel
      ensures Holding([]) && events == old(events) && strays == old(strays)
      ensures var o := Handle(old(View()), conn, Datagram(data, received));
        && View() == o.st && keep == o.keep && sent == o.reply && kernel.log == old(kernel.log) + o.actions
    {
      if |data| < HEADER_BYTES {
        kernel.CloseAll(received);
        return false, None;
      }
      var hdr := ParseHeader(data);
      if hdr.magic != MAGIC || hdr.version != PROTOCOL_VERSION {
        kernel.CloseAll(received);
        return false, None;
      }
      if hdr.kind == ATTACH {
        keep, sent := HandleAttachMsg(conn, received);
      } else if hdr.kind == STORE {
        keep, sent := HandleStoreMsg(conn, data, received);
      } else if hdr.kind == WIPE {
        keep, sent := HandleWipeMsg(conn, data, received);
      } else {
        kernel.CloseAll(received);
        keep, sent := false, None;
      }
    }

    method HandleAttachMsg(conn: Fd, received: seq<Fd>) returns (keep: bool, sent: Option<Reply>)
      requires Holding(received) && conn in conns
      modifies this, kernel
      ensures Holding([]) && events == old(events) && strays == old(strays)
      ensures var o := HandleAttach(old(View()), conn, received);
        && View() == o.st && keep == o.keep && sent == o.reply && kernel.log == old(kernel.log) + o.actions
    {
      kernel.CloseAll(received);
      if attached >= 0 && attached != conn {
        kernel.Send(conn, AttachBusy, []);
        return false, Some(AttachBusy);
      }
      attached := conn;
      if fds == [] {
        kernel.Send(conn, AttachEmpty, []);
        return true, Some(AttachEmpty);
      } else {
        var warm := AttachWarm(|fds|, payload);
        kernel.Send(conn, warm, fds);
        return true, Some(warm);
      }
    }

    method HandleStoreMsg(conn: Fd, data: Bytes, received: seq<Fd>) returns (keep: bool, sent: Option<Reply>)
      requires Holding(received) && conn in conns && |data| >= HEADER_BYTES
      modifies this, kernel
      ensures Holding([]) && events == old(events) && strays == old(strays)
      ensures var o := HandleStore(old(View()), conn, data, received);
        && View() == o.st && keep == o.keep && sent == o.reply && kernel.log == old(kernel.log) + o.actions
    {
      if !Sane(State(fds, payload, attached, conns), conn, data, received) {
        kernel.CloseAll(received);
        kernel.Send(conn, StoreError, []);
        return conn == attached, Some(StoreError);
      }
      kernel.CloseAll(fds);
      fds := received;
      payload := data[HEADER_BYTES..HEADER_BYTES + ParseHeader(data).payloadBytes];
      kernel.Send(conn, StoreOk, []);
      return true, Some(StoreOk);
    }

    method HandleWipeMsg(conn: Fd, data: Bytes, received: seq<Fd>) returns (keep: bool, sent: Option<Reply>)
      requires Holding(received) && conn in conns && |data| >= HEADER_BYTES
      modifies this, kernel
      ensures Holding([]) && events == old(events) && strays == old(strays)
      ensures var o := HandleWipe(old(View()), conn, data, received);
        && View() == o.st && keep == o.keep && sent == o.reply && kernel.log == old(kernel.log) + o.actions
    {
      kernel.CloseAll(received);
      if conn != attached {
        kernel.Send(conn, StoreError, []);
        return true, Some(StoreError);
      }
      var reason := UNSPECIFIED;
      var hdr := ParseHeader(data);
      if hdr.payloadBytes == WIPE_BYTES && HEADER_BYTES + hdr.payloadBytes == |data| {
        reason := U32At(data, HEADER_BYTES);
      }
      if !WipeReasonHonored(reason) {
        kernel.Send(conn, StoreError, []);
        return true, Some(StoreError);
      }
      ghost var log, st := kernel.log, View();
      kernel.CloseAll(fds);
      fds, payload := [], [];
      kernel.Send(conn, StoreOk, []);
      Associative(log, Closing(st.fds), [Sent(conn, StoreOk, [])]);
      return true, Some(StoreOk);
    }

    /** close, erase(find(..)), and auto-detach. */
    method Hangup(conn: Fd)
      requires Holding([]) && conn in conns
      modifies this, kernel
      ensures kernel.Valid() && events == old(events) && strays == old(strays) && View() == Drop(old(View()), conn)
      ensures kernel.log == old(kernel.log) + [Closed(conn)]
    {
      assert conn in Elements(conns);
      kernel.Close(conn);
      var at := Index(conns, conn);
      conns := conns[..at] + conns[at + 1..];
      if conn == attached {
        attached := NONE;
      }
    }

    /** The body of the poll loop for one ready connection. */
    method HandleReady(conn: Fd, msg: Received) returns (sent: Option<Reply>)
      requires Holding([]) && conn in conns
      requires Distinct(msg.fds) && Elements(msg.fds) !! kernel.open
      modifies this, kernel
      ensures kernel.Valid() && events == old(events) && strays == old(strays) + Strays(Deliver(conn, msg))
      ensures View() == Step(old(View()), Deliver(conn, msg))
      ensures kernel.log == old(kernel.log) + Actions(old(View()), Deliver(conn, msg))
      ensures sent == Handle(old(View()), conn, msg).reply
    {
      ghost var st, log := View(), kernel.log;
      var keep;
      keep, sent := HandleMsg(conn, msg);
      ghost var done := Receiving(Deliver(conn, msg)) + Handle(st, conn, msg).actions;
      Associative(log, Receiving(Deliver(conn, msg)), Handle(st, conn, msg).actions);
      if !keep {
        Hangup(conn);
        Associative(log, done, [Closed(conn)]);
      } else {
        Associative(log, done, []);
      }
    }

    /** HandleReady as an event of the holder's run. */
    method ServeMessage(conn: Fd, msg: Received) returns (sent: Option<Reply>)
      requires Valid() && Possible(View(), kernel.open, Deliver(conn, msg))
      modifies this, kernel
      ensures Valid() && events == old(events) + [Deliver(conn, msg)]
      ensures View() == Step(old(View()), Deliver(conn, msg))
      ensures sent == Handle(old(View()), conn, msg).reply
      ensures Elements(old(conns)) - {conn} <= Elements(conns) <= Elements(old(conns))
    {
      ghost var e, st, log := Deliver(conn, msg), View(), kernel.log;
      assert Holding([]) && Elements(Step(st, e).conns) <= Elements(conns)
             && Elements(conns) - {conn} <= Elements(Step(st, e).conns) by {
        Owns();
        LiveAtClose(srv, st, e);
      }
      assert Run(srv, events + [e]) && Reach(srv, events + [e]) == World(Step(st, e), log + Actions(st, e)) by {
        RunExtend(srv, events, e);
      }
      sent := HandleReady(conn, msg);
      events := events + [e];
    }

    /** The receive of what a peer said, as the kernel would hand it over: the descriptors get free numbers. */
    method Pending(said: Said) returns (msg: Received)
      requires kernel.Valid()
      ensures Matches(said, msg)
      ensures Distinct(msg.fds) && Elements(msg.fds) !! kernel.open && forall f <- msg.fds :: f >= 0
    {
      var numbers := kernel.FreeNumbers(said.passed);
      msg := if said.empty then NoBytes(numbers) else Datagram(said.data, numbers);
    }

    /** The accept half of a pass: POLLIN on the listening socket; number is what accept4 yields, -1 when it fails. */
    method AcceptIfReady(readable: bool, number: Fd) returns (accepted: Option<Fd>)
      requires Valid() && number !in kernel.open
      modifies this, kernel
      ensures Valid() && Elements(old(conns)) <= Elements(conns)
      ensures accepted == if readable && number >= 0 then Some(number) else None
      ensures events == old(events) + if accepted.Some? then [Accept(number)] else []
    {
      accepted := None;
      if readable && number >= 0 {
        AcceptConnection(number);
        accepted := Some(number);
      }
    }

    /** One polled connection: if it is ready, what it says is handled. */
    method HandleIfReady(fd: Fd, ready: set<Fd>, says: Fd -> Said) returns (ghost handled: seq<Event>)
      requires Valid() && fd in conns
      modifies this, kernel
      ensures Valid() && Elements(old(conns)) - {fd} <= Elements(conns)
      ensures events == old(events) + handled && Serves(if fd in ready then [fd] else [], says, handled)
    {
      handled := [];
      if fd in ready {
        var msg := Pending(says(fd));
        var _ := ServeMessage(fd, msg);
        handled := [Deliver(fd, msg)];
      }
    }

    /** The loop over the polled connections; a connection closed earlier in the pass is never looked for again. */
    method HandleSnapshot(snapshot: seq<Fd>, ready: set<Fd>, says: Fd -> Said)
      requires Valid() && Distinct(snapshot) && Elements(snapshot) <= Elements(conns)
      modifies this, kernel
      ensures Valid() && old(events) <= events && Serves(Ready(snapshot, ready), says, events[|old(events)|..])
    {
      ghost var handled: seq<Event> := [];
      for i := 0 to |snapshot|
        invariant Valid() && events == old(events) + handled
        invariant Elements(snapshot[i..]) <= Elements(conns)
        invariant Serves(Ready(snapshot[..i], ready), says, handled)
      {
        var fd := snapshot[i];
        assert fd in Elements(snapshot[i..]) && Elements(snapshot[i + 1..]) <= Elements(snapshot[i..]) - {fd};
        ghost var one := HandleIfReady(fd, ready, says);
        ServesOneMore(snapshot, ready, says, i, handled, one);
        Associative(old(events), handled, one);
        handled := handled + one;
      }
      assert snapshot[..|snapshot|] == snapshot;
      assert events[|old(events)|..] == handled;
    }

    /**
     * One pass of the poll loop, for whatever poll reports and the peers say:
     * the listening socket readable or not, any connections ready, any number
     * or none from the accept. The polled connections are those live before the
     * accept; the ready ones among them are served, each once and in order, and
     * no others.
     */
    method PollRound(readable: bool, number: Fd, ready: set<Fd>, says: Fd -> Said)
      requires Valid() && number !in kernel.open
      modifies this, kernel
      ensures Valid() && old(events) <= events
      ensures IsRound(old(conns), ready, says, if readable && number >= 0 then Some(number) else None,
                      events[|old(events)|..])
    {
      var snapshot := conns;
      assert Distinct(snapshot) by {
        Owns();
      }
      var accepted := AcceptIfReady(readable, number);
      ghost var before := events;
      HandleSnapshot(snapshot, ready, says);
      ghost var round := events[|old(events)|..];
      if accepted.Some? {
        assert round[0] == before[|old(events)|] && round[1..] == events[|before|..];
      }
    }

    /** After the loop: everything still held is released, nothing twice, and only the strays stay open. */
    method Shutdown()
      requires Valid()
      modifies this, kernel
      ensures kernel.Valid() && kernel.open == StraysOf(events)
      ensures forall fd :: Opens(kernel.log, fd) == Closes(kernel.log, fd) + if fd in StraysOf(events) then 1 else 0
    {
      Owns();
      kernel.CloseAll(fds);
      fds, payload := [], [];
      kernel.CloseAll(conns);
      kernel.Close(srv);
      forall fd ensures Opens(kernel.log, fd) == Closes(kernel.log, fd) + if fd in StraysOf(events) then 1 else 0 {
        ClosedOncePerOpening({}, kernel.log, fd);
      }
    }
  }
}
