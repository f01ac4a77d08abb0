// The operator tool (tools/arena_ctl.cpp) run against a holder, while any
// other clients go on talking to that holder between any two of its steps.
module ArenaCtl {
  import opened Options
  import opened ArenaProtocol
  import opened FdKernel
  import opened HolderSpec
  import opened HolderRuns
  import opened ArenaHolder

  /** Nothing of conn is left undone: it is live, attached, and the store is what it was. */
  ghost predicate Unchanged(a: State, b: State, conn: Fd) {
    b.attached == conn && conn in b.conns && b.fds == a.fds && b.payload == a.payload
  }

  /** Any number of accepts and of messages of connections other than me. */
  method OtherClients(h: Holder, me: Fd)
    requires h.Valid() && me >= 0 && me in h.conns
    modifies h, h.kernel
    ensures h.Valid() && me in h.conns
    ensures old(h.attached) == me ==> Unchanged(old(h.View()), h.View(), me)
  {
    var n: int := *;
    for i := 0 to if n < 0 then 0 else n
      invariant h.Valid() && me in h.conns
      invariant old(h.attached) == me ==> Unchanged(old(h.View()), h.View(), me)
    {
      OtherStep(h, me);
    }
  }

  method OtherStep(h: Holder, me: Fd)
    requires h.Valid() && me >= 0 && me in h.conns
    modifies h, h.kernel
    ensures h.Valid() && me in h.conns
    ensures old(h.attached) == me ==> Unchanged(old(h.View()), h.View(), me)
  {
    var accept: bool, number: Fd := *, *;
    ghost var st := h.View();
    if accept {
      if number >= 0 && number !in h.kernel.open {
        OtherKeepsStore(st, Accept(number), me);
        h.AcceptConnection(number);
      }
    } else if number != me && number in h.conns {
      OtherMessage(h, number, me);
    }
  }

  method OtherMessage(h: Holder, conn: Fd, me: Fd)
    requires h.Valid() && me >= 0 && me in h.conns && conn in h.conns && conn != me
    modifies h, h.kernel
    ensures h.Valid() && me in h.conns
    ensures old(h.attached) == me ==> Unchanged(old(h.View()), h.View(), me)
  {
    var empty: bool, data: Bytes, passed: nat := *, *, *;
    var msg := h.Pending(Said(empty, data, passed));
    OtherKeepsStore(h.View(), Deliver(conn, msg), me);
    assert me in Elements(h.conns) - {conn};
    var _ := h.ServeMessage(conn, msg);
    assert me in Elements(h.conns);
  }

  lemma OtherKeepsStore(st: State, e: Event, me: Fd)
    requires me >= 0 && (e.Deliver? ==> e.conn != me)
    ensures st.attached == me ==>
      var st' := Step(st, e); st'.attached == me && st'.fds == st.fds && st'.payload == st.payload
    ensures e.Accept? && me in st.conns ==> me in Step(st, e).conns
  {
    if st.attached == me {
      OtherChangesNothing(st, e);
    }
  }

  /** A message of the attached client itself, and what it does to the store. */
  lemma OwnWipe(st: State, conn: Fd, detail: Bytes)
    requires st.attached == conn
    ensures var msg := Datagram(WipeMessage(OPERATOR_REQUEST, detail), []);
      && Step(st, Deliver(conn, msg)) == st.(fds := [], payload := [])
      && Handle(st, conn, msg).reply == Some(StoreOk)
  {
  }

  /** A detach message and an end of file part the same way: the store stays. */
  lemma OwnDetach(st: State, conn: Fd, msg: Received)
    requires msg == EOF || msg == Datagram(Bare(DETACH), [])
    ensures Step(st, Deliver(conn, msg)) == Drop(st, conn)
  {
  }

  lemma OwnAttach(st: State, conn: Fd)
    requires conn >= 0 && (st.attached == NONE || st.attached >= 0)
    ensures var e := Deliver(conn, Datagram(Bare(ATTACH), [])); var reply := Handle(st, conn, e.msg).reply;
      if st.attached == NONE || st.attached == conn
      then Step(st, e) == st.(attached := conn)
           && reply == Some(if st.fds == [] then AttachEmpty else AttachWarm(|st.fds|, st.payload))
      else reply == Some(AttachBusy) && Step(st, e) == Drop(st, conn)
  {
  }

  /** A dropped connection is no longer in the list. */
  lemma Gone(st: State, conn: Fd)
    requires Distinct(st.conns) && conn in st.conns
    ensures conn !in Drop(st, conn).conns
  {
    WithoutDistinct(st.conns, conn);
  }

  /** How the holder sees an event of the client itself. */
  method Say(h: Holder, conn: Fd, msg: Received) returns (sent: Option<Reply>)
    requires h.Valid() && conn in h.conns && msg.fds == []
    modifies h, h.kernel
    ensures h.Valid() && h.View() == Step(old(h.View()), Deliver(conn, msg))
    ensures sent == Handle(old(h.View()), conn, msg).reply
  {
    assert Possible(h.View(), h.kernel.open, Deliver(conn, msg)) by {
      assert Elements(msg.fds) == {};
    }
    sent := h.ServeMessage(conn, msg);
  }

  /** What gets through between the tool and the holder. */
  datatype Net = Net(
    reached: bool, attachSent: bool, attachAnswered: bool, wipeSent: bool, wipeAnswered: bool, detachSent: bool)

  /** The holder serves no further connection. */
  predicate Full(st: State) {
    |st.conns| >= 16
  }

  /** Someone else is attached. */
  predicate Busy(st: State, conn: Fd) {
    st.attached >= 0 && st.attached != conn
  }

  /** The answer to an attach that is granted. */
  function Granted(st: State): Reply {
    if st.fds == [] then AttachEmpty else AttachWarm(|st.fds|, st.payload)
  }

  /** What one run of the tool learned and did. */
  datatype Report = Report(rc: int, warm: bool, segments: nat)

  class Tool {
    const holder: Holder
    const table: Kernel  // the tool's own descriptor table

    constructor (h: Holder, k: Kernel)
      ensures holder == h && table == k
    {
      holder, table := h, k;
    }

    ghost predicate Ready()
      reads this, holder, holder.kernel, table
    {
      holder.Valid() && table.Valid() && table != holder.kernel
    }

    /**
     * Connect, attach, wait for the reply. s is the tool's socket, or -1; conn
     * is the same connection as the holder numbers it. met is the holder's state
     * where it decided: when it accepted, or when it read the attach. Descriptors
     * that ride a warm reply are closed at once.
     */
    method Attach(s0: Fd, conn: Fd, net: Net) returns (s: Fd, status: Option<Reply>, numFds: nat, ghost met: State)
      requires Ready() && s0 >= 0 && s0 !in table.open && conn >= 0 && conn !in holder.kernel.open
      modifies holder, holder.kernel, table
      ensures Ready() && (s == -1 || s == s0) && (s == -1 ==> conn !in holder.conns)
      ensures table.open == old(table.open) + (if s == s0 then {s0} else {})
      ensures s == -1 ==> !net.reached || !net.attachSent || !net.attachAnswered || Full(met) || Busy(met, conn)
      ensures s == s0 ==> net.reached && net.attachSent && net.attachAnswered && !Busy(met, conn)
      ensures s == s0 ==> conn in holder.conns && holder.attached == conn
      ensures s == s0 ==> holder.fds == met.fds && holder.payload == met.payload
      ensures s == s0 ==> (numFds == |met.fds| && status == Some(Granted(met)))
    {
      var connected;
      connected, met := Connect(s0, conn, net);
      if !connected {
        return -1, None, 0, met;
      }
      s, status, numFds, met := Ask(s0, conn, net);
    }

    /** Open the socket and reach the holder. Over the holder's cap the connection is closed unserved. */
    method Connect(s0: Fd, conn: Fd, net: Net) returns (connected: bool, ghost met: State)
      requires Ready() && s0 !in table.open && conn >= 0 && conn !in holder.kernel.open
      modifies holder, holder.kernel, table
      ensures Ready() && table.open == old(table.open) + (if connected then {s0} else {})
      ensures connected == (net.reached && !Full(met)) && (connected <==> conn in holder.conns)
    {
      table.Open(s0);
      holder.Owns();
      assert conn !in Elements(holder.conns);
      met := holder.View();
      connected := false;
      if net.reached {
        holder.AcceptConnection(conn);
        connected := conn in holder.conns;
      }
      if connected {
        OtherClients(holder, conn);
      } else {
        table.Close(s0);
      }
    }

    /** The attach exchange; on any failure the socket is closed and the holder sees the end of it. */
    method Ask(s0: Fd, conn: Fd, net: Net) returns (s: Fd, status: Option<Reply>, numFds: nat, ghost met: State)
      requires Ready() && s0 in table.open && s0 >= 0 && conn >= 0 && conn in holder.conns
      modifies holder, holder.kernel, table
      ensures Ready() && (s == -1 || s == s0) && (s == -1 ==> conn !in holder.conns)
      ensures table.open == if s == s0 then old(table.open) else old(table.open) - {s0}
      ensures s == s0 <==> net.attachSent && net.attachAnswered && !Busy(met, conn)
      ensures s == s0 ==> conn in holder.conns && holder.attached == conn
      ensures s == s0 ==> holder.fds == met.fds && holder.payload == met.payload
      ensures s == s0 ==> (numFds == |met.fds| && status == Some(Granted(met)))
    {
      met := holder.View();
      if !net.attachSent {
        table.Close(s0);
        HangUp(conn);
        return -1, None, 0, met;
      }
      var reply := SayAttach(conn);
      if reply == Some(AttachBusy) {
        table.Close(s0);
        return -1, reply, 0, met;
      }
      numFds := if reply.value.AttachWarm? then reply.value.numFds else 0;
      TakeDescriptors(s0, numFds);
      if !net.attachAnswered {
        table.Close(s0);
        HangUp(conn);
        return -1, None, 0, met;
      }
      return s0, reply, numFds, met;
    }

    /** The holder sees the attach: refused and dropped, or granted with the store as it is. */
    method SayAttach(conn: Fd) returns (reply: Option<Reply>)
      requires Ready() && conn >= 0 && conn in holder.conns
      modifies holder, holder.kernel
      ensures Ready()
      ensures holder.fds == old(holder.fds) && holder.payload == old(holder.payload)
      ensures if Busy(old(holder.View()), conn) then reply == Some(AttachBusy) && conn !in holder.conns
              else reply == Some(Granted(old(holder.View()))) && conn in holder.conns && holder.attached == conn
    {
      AttachedIsNoneOrLive();
      holder.Owns();
      Gone(holder.View(), conn);
      OwnAttach(holder.View(), conn);
      reply := Say(holder, conn, Datagram(Bare(ATTACH), []));
    }

    /** The holder sees the end of the connection. */
    method HangUp(conn: Fd)
      requires Ready() && conn in holder.conns
      modifies holder, holder.kernel
      ensures Ready() && conn !in holder.conns && holder.View() == Drop(old(holder.View()), conn)
    {
      holder.Owns();
      Gone(holder.View(), conn);
      OwnDetach(holder.View(), conn, EOF);
      var _ := Say(holder, conn, EOF);
    }

    lemma AttachedIsNoneOrLive()
      requires holder.Valid()
      ensures holder.attached == NONE || holder.attached >= 0
    {
      holder.Owns();
    }

    /** Receive count descriptors under whatever numbers are free, and close them all. */
    method TakeDescriptors(s: Fd, count: nat)
      requires table.Valid() && s in table.open
      modifies table
      ensures table.Valid() && table.open == old(table.open)
    {
      var numbers := table.FreeNumbers(count);
      table.Recv(s, Datagram([], numbers));
      table.CloseAll(numbers);
    }

    /** Best-effort detach: the message may be lost, the close is not. */
    method Detach(s: Fd, conn: Fd, net: Net)
      requires Ready() && s in table.open && conn in holder.conns
      modifies holder, holder.kernel, table
      ensures Ready() && table.open == old(table.open) - {s}
      ensures holder.View() == Drop(old(holder.View()), conn) && conn !in holder.conns
    {
      table.Close(s);
      var msg := if net.detachSent then Datagram(Bare(DETACH), []) else EOF;
      holder.Owns();
      Gone(holder.View(), conn);
      OwnDetach(holder.View(), conn, msg);
      var _ := Say(holder, conn, msg);
    }

    /**
     * The tool from connect to exit, for whatever gets through and with other
     * clients acting before and after every step. met is the holder's state
     * where it let the tool in or turned it away. Once let in, a wipe run empties
     * the store exactly if the request got through, or it was empty before, and
     * succeeds exactly if the answer did too; a status run leaves what it saw and
     * succeeds. The tool's descriptors and its connection are gone at the end,
     * and nobody is attached.
     */
    method Run(doWipe: bool, detail: Bytes, s0: Fd, conn: Fd, net: Net)
      returns (r: Report, ghost attached: bool, ghost met: State)
      requires Ready() && s0 >= 0 && s0 !in table.open && conn >= 0 && conn !in holder.kernel.open
      modifies holder, holder.kernel, table
      ensures Ready() && table.open == old(table.open) && conn !in holder.conns
      ensures !attached ==> r == Report(1, false, 0)
      ensures !attached ==> !net.reached || !net.attachSent || !net.attachAnswered || Full(met) || Busy(met, conn)
      ensures attached ==> net.reached && net.attachSent && net.attachAnswered && !Busy(met, conn)
      ensures attached ==> holder.attached == NONE
      ensures attached ==>
        (holder.fds, holder.payload) == if doWipe && net.wipeSent then ([], []) else (met.fds, met.payload)
      ensures attached ==> r == Report(if doWipe && !(net.wipeSent && net.wipeAnswered) then 1 else 0, met.fds != [],
                                       if met.fds == [] then 0 else |met.fds| - 1)
    {
      var s, status, numFds;
      s, status, numFds, met := Attach(s0, conn, net);
      if s < 0 {
        return Report(1, false, 0), false, met;
      }
      attached := true;
      var warm := status.value.AttachWarm?;
      var segments := if warm && numFds >= 1 then numFds - 1 else 0;
      var rc := 0;
      OtherClients(holder, conn);
      if doWipe {
        rc := Wipe(conn, detail, net);
        OtherClients(holder, conn);
      }
      Detach(s, conn, net);
      r := Report(rc, warm, segments);
    }

    /** The wipe exchange: the request or its answer may be lost, and then, and only then, the tool reports failure. */
    method Wipe(conn: Fd, detail: Bytes, net: Net) returns (rc: int)
      requires Ready() && conn in holder.conns && holder.attached == conn
      modifies holder, holder.kernel
      ensures Ready() && holder.conns == old(holder.conns) && holder.attached == conn
      ensures rc == if net.wipeSent && net.wipeAnswered then 0 else 1
      ensures (holder.fds, holder.payload)
        == if net.wipeSent then ([], []) else (old(holder.fds), old(holder.payload))
    {
      if !net.wipeSent {
        return 1;
      }
      OwnWipe(holder.View(), conn, detail);
      var reply := Say(holder, conn, Datagram(WipeMessage(OPERATOR_REQUEST, detail), []));
      return if net.wipeAnswered && reply == Some(StoreOk) then 0 else 1;
    }
  }
}
