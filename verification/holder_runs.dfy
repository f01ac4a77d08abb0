// What holds over every run of the arena holder: who owns which descriptor,
// what the store contains, and who may change it.
module HolderRuns {
  import opened Options
  import opened ArenaProtocol
  import opened FdKernel
  import opened HolderSpec
  import opened LastWrite

  // ---- descriptor ownership -------------------------------------------------

  /** The listening socket, the connections and the stored descriptors: everything the holder knows of. */
  ghost function Owned(srv: Fd, st: State): set<Fd> {
    {srv} + Elements(st.conns) + Elements(st.fds)
  }

  ghost predicate Inv(srv: Fd, st: State) {
    && srv >= 0 && srv !in st.conns && srv !in st.fds
    && Distinct(st.conns) && Distinct(st.fds) && Elements(st.conns) !! Elements(st.fds)
    && (forall c <- st.conns :: c >= 0)
    && |st.conns| <= MAX_CONNS
    && (st.attached == NONE || st.attached in st.conns)
    && (if st.fds == [] then st.payload == []
        else |st.fds| <= MAX_SEGMENTS + 1 && |st.payload| == (|st.fds| - 1) * SEGMENT_BYTES)
  }

  lemma CutAt(s: seq<Fd>, i: nat, k: nat)
    requires i < |s| && k < |s| - 1
    ensures (s[..i] + s[i + 1..])[k] == s[if k < i then k else k + 1]
  {
  }

  lemma WithoutAt(s: seq<Fd>, f: Fd, k: nat)
    requires f in s && k < |s| - 1
    ensures |Without(s, f)| == |s| - 1 && Without(s, f)[k] == s[if k < Index(s, f) then k else k + 1]
  {
    var i := Index(s, f);
    CutAt(s, i, k);
  }

  lemma WithoutDistinct(s: seq<Fd>, f: Fd)
    requires Distinct(s) && f in s
    ensures Distinct(Without(s, f)) && f !in Without(s, f)
  {
    var i, r := Index(s, f), Without(s, f);
    forall j, k | 0 <= j < k < |r| ensures r[j] != r[k] {
      WithoutAt(s, f, j);
      WithoutAt(s, f, k);
    }
    forall k | 0 <= k < |r| ensures r[k] != f {
      WithoutAt(s, f, k);
    }
  }

  lemma WithoutMembers(s: seq<Fd>, f: Fd)
    requires Distinct(s) && f in s
    ensures Distinct(Without(s, f)) && Elements(Without(s, f)) == Elements(s) - {f}
    ensures |Without(s, f)| == |s| - 1
  {
    var i, r := Index(s, f), Without(s, f);
    WithoutDistinct(s, f);
    forall x | x in s && x != f ensures x in r {
      var k :| 0 <= k < |s| && s[k] == x;
      WithoutAt(s, f, if k < i then k else k - 1);
    }
    forall x | x in r ensures x in s {
      var k :| 0 <= k < |r| && r[k] == x;
      WithoutAt(s, f, k);
    }
  }

  lemma AcceptSafe(srv: Fd, st: State, c: Fd)
    requires Inv(srv, st) && c >= 0 && c !in Owned(srv, st)
    ensures var e := Accept(c); var st' := Step(st, e);
      Inv(srv, st') && Legal(Owned(srv, st), Actions(st, e)) && After(Owned(srv, st), Actions(st, e)) == Owned(srv, st')
  {
    var open := Owned(srv, st);
    LogOne(open, Opened(c));
    if |st.conns| >= MAX_CONNS {
      LogOne(open + {c}, Closed(c));
      LogConcat(open, [Opened(c)], [Closed(c)]);
    } else {
      assert Elements(st.conns + [c]) == Elements(st.conns) + {c};
      assert [Opened(c)] + [] == [Opened(c)];
    }
  }

  /** Closing what is no longer wanted and answering on a live connection is always permitted. */
  lemma CloseThenSend(open: set<Fd>, gone: seq<Fd>, c: Fd, reply: Reply, passed: seq<Fd>)
    requires Distinct(gone) && Elements(gone) <= open
    requires c in open - Elements(gone) && Elements(passed) <= open - Elements(gone)
    ensures var log := Closing(gone) + [Sent(c, reply, passed)];
      Legal(open, log) && After(open, log) == open - Elements(gone)
  {
    ClosingIsLegal(open, gone);
    assert forall f <- passed :: f in Elements(passed);
    LogOne(open - Elements(gone), Sent(c, reply, passed));
    LogConcat(open, Closing(gone), [Sent(c, reply, passed)]);
  }

  ghost predicate Safe(srv: Fd, st: State, fds: seq<Fd>, o: Outcome) {
    var open := Owned(srv, st) + Elements(fds);
    Inv(srv, o.st) && Legal(open, o.actions) && After(open, o.actions) == Owned(srv, o.st) && o.st.conns == st.conns
  }

  lemma AttachSafe(srv: Fd, st: State, c: Fd, fds: seq<Fd>)
    requires Inv(srv, st) && c in st.conns && Distinct(fds) && Elements(fds) !! Owned(srv, st)
    ensures Safe(srv, st, fds, HandleAttach(st, c, fds))
  {
    var open := Owned(srv, st) + Elements(fds);
    assert open - Elements(fds) == Owned(srv, st);
    CloseThenSend(open, fds, c, AttachBusy, []);
    CloseThenSend(open, fds, c, AttachEmpty, []);
    CloseThenSend(open, fds, c, AttachWarm(|st.fds|, st.payload), st.fds);
  }

  lemma StoreSafe(srv: Fd, st: State, c: Fd, data: Bytes, fds: seq<Fd>)
    requires Inv(srv, st) && c in st.conns && Distinct(fds) && Elements(fds) !! Owned(srv, st)
    requires |data| >= HEADER_BYTES
    ensures Safe(srv, st, fds, HandleStore(st, c, data, fds))
  {
    var open := Owned(srv, st) + Elements(fds);
    if Sane(st, c, data, fds) {
      assert forall f <- fds :: f in Elements(fds);
      assert open - Elements(st.fds) == {srv} + Elements(st.conns) + Elements(fds);
      CloseThenSend(open, st.fds, c, StoreOk, []);
    } else {
      assert open - Elements(fds) == Owned(srv, st);
      CloseThenSend(open, fds, c, StoreError, []);
    }
  }

  lemma WipeSafe(srv: Fd, st: State, c: Fd, data: Bytes, fds: seq<Fd>)
    requires Inv(srv, st) && c in st.conns && Distinct(fds) && Elements(fds) !! Owned(srv, st)
    requires |data| >= HEADER_BYTES
    ensures Safe(srv, st, fds, HandleWipe(st, c, data, fds))
  {
    var open, o := Owned(srv, st) + Elements(fds), HandleWipe(st, c, data, fds);
    assert open - Elements(fds) == Owned(srv, st);
    if o.reply == Some(StoreOk) {
      ClosingIsLegal(open, fds);
      CloseThenSend(Owned(srv, st), st.fds, c, StoreOk, []);
      assert Owned(srv, st) - Elements(st.fds) == {srv} + Elements(st.conns);
      var tail := Closing(st.fds) + [Sent(c, StoreOk, [])];
      LogConcat(open, Closing(fds), tail);
      assert o.actions == Closing(fds) + tail;
    } else {
      CloseThenSend(open, fds, c, StoreError, []);
    }
  }

  lemma HandleSafe(srv: Fd, st: State, c: Fd, data: Bytes, fds: seq<Fd>)
    requires Inv(srv, st) && c in st.conns && Distinct(fds) && Elements(fds) !! Owned(srv, st)
    ensures Safe(srv, st, fds, Handle(st, c, Datagram(data, fds)))
  {
    if IsKind(data, ATTACH) {
      AttachSafe(srv, st, c, fds);
    } else if IsKind(data, STORE) {
      StoreSafe(srv, st, c, data, fds);
    } else if IsKind(data, WIPE) {
      WipeSafe(srv, st, c, data, fds);
    } else {
      ClosingIsLegal(Owned(srv, st) + Elements(fds), fds);
      assert Owned(srv, st) + Elements(fds) - Elements(fds) == Owned(srv, st);
    }
  }

  lemma ReceivingSafe(open: set<Fd>, c: Fd, msg: Received)
    requires c in open && Distinct(msg.fds) && Elements(msg.fds) !! open
    ensures var log := Receiving(Deliver(c, msg));
      Legal(open, log) && After(open, log) == open + Elements(msg.fds)
  {
    LogOne(open, Read(c));
    OpeningIsLegal(open, msg.fds);
    LogConcat(open, [Read(c)], Opening(msg.fds));
  }

  /** Closing a live connection and forgetting it keeps the books in order. */
  lemma DropSafe(srv: Fd, st: State, c: Fd)
    requires Inv(srv, st) && c in st.conns
    ensures Inv(srv, Drop(st, c))
    ensures Legal(Owned(srv, st), [Closed(c)]) && After(Owned(srv, st), [Closed(c)]) == Owned(srv, Drop(st, c))
  {
    WithoutMembers(st.conns, c);
    var left := Without(st.conns, c);
    assert forall d <- left :: d in Elements(left);
    assert forall d <- st.conns | d != c :: d in Elements(left) && d in left;
    assert c in Elements(st.conns);
    LogOne(Owned(srv, st), Closed(c));
    assert Owned(srv, st) - {c} == Owned(srv, Drop(st, c));
  }

  // ---- descriptors that arrive unseen -----------------------------------------

  /** The descriptors of an empty datagram: installed by the kernel, unseen by the handler. */
  ghost function Strays(e: Event): set<Fd> {
    if e.Deliver? && e.msg.NoBytes? then Elements(e.msg.fds) else {}
  }

  ghost function StraysOf(evs: seq<Event>): set<Fd> {
    if evs == [] then {} else StraysOf(evs[..|evs| - 1]) + Strays(evs[|evs| - 1])
  }

  /** No event of the run is an empty datagram with descriptors. */
  ghost predicate NoStrays(evs: seq<Event>) {
    forall e <- evs :: e.Deliver? && e.msg.NoBytes? ==> e.msg.fds == []
  }

  lemma {:induction false} StraysExactly(evs: seq<Event>)
    ensures StraysOf(evs) == {} <==> NoStrays(evs)
    decreases |evs|
  {
    if evs != [] {
      var n := |evs| - 1;
      StraysExactly(evs[..n]);
      assert evs == evs[..n] + [evs[n]];
      var e := evs[n];
      if e.Deliver? && e.msg.fds != [] {
        assert e.msg.fds[0] in Elements(e.msg.fds);
      }
    }
  }

  lemma HandledSafe(srv: Fd, st: State, c: Fd, msg: Received)
    requires Inv(srv, st) && Possible(st, Owned(srv, st), Deliver(c, msg))
    ensures var open, o := Owned(srv, st) + Elements(msg.fds), Handle(st, c, msg);
      && Inv(srv, o.st) && Legal(open, o.actions) && o.st.conns == st.conns
      && After(open, o.actions) == Owned(srv, o.st) + Strays(Deliver(c, msg))
  {
    if msg.Datagram? {
      HandleSafe(srv, st, c, msg.data, msg.fds);
    }
  }

  /** A step among the holder's own descriptors. */
  lemma StepAlone(srv: Fd, st: State, e: Event)
    requires Inv(srv, st) && Possible(st, Owned(srv, st), e)
    ensures Inv(srv, Step(st, e)) && Strays(e) !! Owned(srv, Step(st, e))
    ensures Legal(Owned(srv, st), Actions(st, e))
    ensures After(Owned(srv, st), Actions(st, e)) == Owned(srv, Step(st, e)) + Strays(e)
  {
    match e
    case Accept(c) => AcceptSafe(srv, st, c);
    case Deliver(c, msg) =>
      var open, o := Owned(srv, st), Handle(st, c, msg);
      ReceivingSafe(open, c, msg);
      HandledSafe(srv, st, c, msg);
      LogConcat(open, Receiving(e), o.actions);
      var done := Receiving(e) + o.actions;
      if o.keep {
        assert Actions(st, e) == done;
      } else {
        LogConcat(open, done, [Closed(c)]);
        DropSafe(srv, o.st, c);
        HangUpSafe(srv, o.st, c, Strays(e));
      }
  }

  lemma HangUpSafe(srv: Fd, st: State, c: Fd, strays: set<Fd>)
    requires Inv(srv, st) && c in st.conns && strays !! Owned(srv, st)
    ensures var open := Owned(srv, st) + strays;
      && Legal(open, [Closed(c)]) && After(open, [Closed(c)]) == Owned(srv, Drop(st, c)) + strays
      && strays !! Owned(srv, Drop(st, c))
  {
    DropSafe(srv, st, c);
    LogFrame(Owned(srv, st), strays, [Closed(c)]);
  }

  /**
   * One step beside the strays of earlier ones: it is permitted, leaves open
   * what the holder then owns and the strays, and adds a stray exactly for each
   * descriptor of an empty datagram.
   */
  lemma StepSafe(srv: Fd, st: State, strays: set<Fd>, e: Event)
    requires Inv(srv, st) && strays !! Owned(srv, st) && Possible(st, Owned(srv, st) + strays, e)
    ensures Inv(srv, Step(st, e)) && strays + Strays(e) !! Owned(srv, Step(st, e))
    ensures Legal(Owned(srv, st) + strays, Actions(st, e))
    ensures After(Owned(srv, st) + strays, Actions(st, e)) == Owned(srv, Step(st, e)) + strays + Strays(e)
  {
    StepAlone(srv, st, e);
    forall f | f in strays ensures Opened(f) !in Actions(st, e) {
      StepOpensFree(st, Owned(srv, st) + strays, e, f);
    }
    LogFrame(Owned(srv, st), strays, Actions(st, e));
  }

  lemma StepOpensFree(st: State, open: set<Fd>, e: Event, f: Fd)
    requires Possible(st, open, e) && f in open
    ensures Opened(f) !in Actions(st, e)
  {
    match e
    case Accept(c) =>
    case Deliver(c, msg) =>
      HandlerOpensNothing(st, c, msg, f);
      assert f !in Elements(msg.fds);
      assert Opened(f) !in Opening(msg.fds);
  }

  lemma {:induction false} RunPrefix(srv: Fd, evs: seq<Event>, n: nat)
    requires Run(srv, evs) && n <= |evs|
    ensures Run(srv, evs[..n])
    decreases |evs|
  {
    if n == |evs| {
      assert evs[..n] == evs;
    } else {
      var before := evs[..|evs| - 1];
      assert before[..n] == evs[..n];
      RunPrefix(srv, before, n);
    }
  }

  lemma PossibleAt(srv: Fd, evs: seq<Event>, n: nat)
    requires Run(srv, evs) && n < |evs|
    ensures Possible(StateAt(srv, evs, n), After({}, Reach(srv, evs[..n]).log), evs[n])
  {
    var upTo := evs[..n + 1];
    RunPrefix(srv, evs, n + 1);
    assert upTo[..n] == evs[..n];
  }

  /**
   * Descriptor ownership. After every run the open numbers are the listening
   * socket, the connections and the stored descriptors, without overlap, and
   * beside them exactly the descriptors that came with empty datagrams; and
   * nothing in the run used or closed a number that was not open.
   */
  lemma {:induction false} Ownership(srv: Fd, evs: seq<Event>)
    requires Run(srv, evs)
    ensures var w := Reach(srv, evs);
      && Inv(srv, w.st) && Legal({}, w.log) && StraysOf(evs) !! Owned(srv, w.st)
      && After({}, w.log) == Owned(srv, w.st) + StraysOf(evs)
    decreases |evs|
  {
    if evs == [] {
      LogOne({}, Opened(srv));
    } else {
      var n := |evs| - 1;
      RunPrefix(srv, evs, n);
      Ownership(srv, evs[..n]);
      var w := Reach(srv, evs[..n]);
      StepSafe(srv, w.st, StraysOf(evs[..n]), evs[n]);
      LogConcat({}, w.log, Actions(w.st, evs[n]));
    }
  }

  /** The holder knows of everything it has open, if and only if no empty datagram brought descriptors. */
  lemma OwnershipExactly(srv: Fd, evs: seq<Event>)
    requires Run(srv, evs)
    ensures After({}, Reach(srv, evs).log) == Owned(srv, Reach(srv, evs).st) <==> NoStrays(evs)
  {
    Ownership(srv, evs);
    StraysExactly(evs);
    var owned := Owned(srv, Reach(srv, evs).st);
    assert owned + StraysOf(evs) == owned ==> StraysOf(evs) <= owned;
  }

  /** A run that leaks: one client connects and sends an empty datagram with one descriptor. */
  lemma EmptyDatagramLeaks()
    ensures var evs := [Accept(4), Deliver(4, NoBytes([5]))];
      && Run(3, evs) && Reach(3, evs).st == START
      && After({}, Reach(3, evs).log) == Owned(3, START) + {5} && 5 !in Owned(3, START)
  {
    var one, evs := [Accept(4)], [Accept(4), Deliver(4, NoBytes([5]))];
    FirstClient(3, 4);
    assert evs[..1] == one && Elements([4]) == {4} && Elements([5]) == {5};
    Ownership(3, one);
    assert StraysOf(one) == StraysOf(one[..0]) == {};
    assert StraysOf(evs) == {5};
    Ownership(3, evs);
  }

  lemma FirstClient(srv: Fd, c: Fd)
    requires srv >= 0 && c >= 0 && c != srv
    ensures Run(srv, [Accept(c)]) && Reach(srv, [Accept(c)]).st == START.(conns := [c])
  {
    var one := [Accept(c)];
    assert one[..0] == [];
    LogOne({}, Opened(srv));
  }

  lemma AtStep(srv: Fd, evs: seq<Event>, i: nat)
    requires Run(srv, evs) && i < |evs|
    ensures Run(srv, evs[..i]) && Inv(srv, StateAt(srv, evs, i))
    ensures Possible(StateAt(srv, evs, i), Owned(srv, StateAt(srv, evs, i)) + StraysOf(evs[..i]), evs[i])
    ensures StateAt(srv, evs, i + 1) == Step(StateAt(srv, evs, i), evs[i])
  {
    RunPrefix(srv, evs, i);
    PossibleAt(srv, evs, i);
    Ownership(srv, evs[..i]);
    StateAfter(srv, evs, i);
  }

  lemma StateAfter(srv: Fd, evs: seq<Event>, i: nat)
    requires i < |evs|
    ensures StateAt(srv, evs, i + 1) == Step(StateAt(srv, evs, i), evs[i])
  {
    assert evs[..i + 1][..i] == evs[..i];
  }

  lemma PrefixStates(srv: Fd, evs: seq<Event>, n: nat, i: nat)
    requires i <= n <= |evs|
    ensures StateAt(srv, evs[..n], i) == StateAt(srv, evs, i)
  {
    assert evs[..n][..i] == evs[..i];
  }

  /** When a message ends its connection, that connection is found in the list, and is gone from it afterwards. */
  lemma LiveAtClose(srv: Fd, st: State, e: Event)
    requires Inv(srv, st) && e.Deliver? && e.conn in st.conns
    ensures e.conn in Handle(st, e.conn, e.msg).st.conns
    ensures Elements(Step(st, e).conns) == Elements(st.conns) - if Ends(st, e) then {e.conn} else {}
  {
    WithoutMembers(st.conns, e.conn);
  }

  /** None is closed twice over the whole run, and none is left open but what is owned and the strays. */
  lemma EveryFdClosedOnce(srv: Fd, evs: seq<Event>, fd: Fd)
    requires Run(srv, evs)
    ensures var w := Reach(srv, evs);
      Opens(w.log, fd) == Closes(w.log, fd) + (if fd in Owned(srv, w.st) + StraysOf(evs) then 1 else 0)
  {
    Ownership(srv, evs);
    ClosedOncePerOpening({}, Reach(srv, evs).log, fd);
  }

  lemma {:induction false} OpensConcat(a: seq<Action>, b: seq<Action>, fd: Fd)
    ensures Opens(a + b, fd) == Opens(a, fd) + Opens(b, fd)
    decreases |a|
  {
    if a == [] {
      assert a + b == b;
    } else {
      assert (a + b)[1..] == a[1..] + b;
      OpensConcat(a[1..], b, fd);
    }
  }

  lemma {:induction false} OpensNone(log: seq<Action>, fd: Fd)
    requires Opened(fd) !in log
    ensures Opens(log, fd) == 0
    decreases |log|
  {
    if log != [] {
      OpensNone(log[1..], fd);
    }
  }

  lemma {:induction false} OpensOnce(fds: seq<Fd>, fd: Fd)
    requires Distinct(fds)
    ensures Opens(Opening(fds), fd) == if fd in fds then 1 else 0
    decreases |fds|
  {
    if fds != [] {
      assert Opening(fds)[1..] == Opening(fds[1..]);
      OpensOnce(fds[1..], fd);
      assert fds == [fds[0]] + fds[1..];
    }
  }

  lemma HandlerOpensNothing(st: State, c: Fd, msg: Received, f: Fd)
    ensures Opened(f) !in Handle(st, c, msg).actions
  {
    var o := Handle(st, c, msg);
    if msg.Datagram? {
      assert Opened(f) !in Closing(msg.fds) && Opened(f) !in Closing(st.fds);
      assert forall r, p :: Opened(f) !in [Sent(c, r, p)];
    }
  }

  lemma OpenedOnceInStep(st: State, c: Fd, data: Bytes, fds: seq<Fd>, f: Fd)
    requires Distinct(fds) && f in fds
    ensures Opens(Actions(st, Deliver(c, Datagram(data, fds))), f) == 1
  {
    var e, o := Deliver(c, Datagram(data, fds)), Handle(st, c, Datagram(data, fds));
    var rest := o.actions + if o.keep then [] else [Closed(c)];
    assert Actions(st, e) == ([Read(c)] + Opening(fds)) + rest;
    OpensConcat([Read(c)] + Opening(fds), rest, f);
    OpensConcat([Read(c)], Opening(fds), f);
    OpensOnce(fds, f);
    OpensNone([Read(c)], f);
    HandlerOpensNothing(st, c, e.msg, f);
    OpensNone(rest, f);
  }

  lemma FateOfOne(srv: Fd, st: State, e: Event, f: Fd)
    requires Inv(srv, st) && Possible(st, Owned(srv, st), e)
    requires e.Deliver? && e.msg.Datagram? && f in e.msg.fds
    ensures Closes(Actions(st, e), f) == if f in Step(st, e).fds then 0 else 1
  {
    var open, st' := Owned(srv, st), Step(st, e);
    assert f in Elements(e.msg.fds) && f !in open;
    assert Legal(open, Actions(st, e)) && After(open, Actions(st, e)) == Owned(srv, st') by {
      StepAlone(srv, st, e);
    }
    assert Opens(Actions(st, e), f) == 1 by {
      OpenedOnceInStep(st, e.conn, e.msg.data, e.msg.fds, f);
    }
    assert f !in Elements(st'.conns) by {
      LiveAtClose(srv, st, e);
    }
    ClosedOncePerOpening(open, Actions(st, e), f);
    assert f in Owned(srv, st') <==> f in Elements(st'.fds);
  }

  /**
   * The fate of what a message brings: its descriptors all become the store,
   * and none is closed; or each of them is closed exactly once within the step
   * and the store holds none of them.
   */
  lemma ReceivedFate(srv: Fd, st: State, e: Event)
    requires Inv(srv, st) && Possible(st, Owned(srv, st), e) && e.Deliver? && e.msg.Datagram?
    ensures if AcceptedStore(st, e) then Step(st, e).fds == e.msg.fds
            else forall f <- e.msg.fds :: f !in Step(st, e).fds
    ensures forall f <- e.msg.fds :: Closes(Actions(st, e), f) == if AcceptedStore(st, e) then 0 else 1
  {
    StoreChange(st, e);
    forall f <- e.msg.fds
      ensures Closes(Actions(st, e), f) == if f in Step(st, e).fds then 0 else 1
      ensures f !in st.fds
    {
      FateOfOne(srv, st, e, f);
      assert f in Elements(e.msg.fds) && f !in Owned(srv, st) && f !in Elements(st.fds);
    }
  }

  // ---- the store is a register with one owner -------------------------------

  ghost predicate AcceptedStore(st: State, e: Event) {
    e.Deliver? && e.msg.Datagram? && IsKind(e.msg.data, STORE) && Sane(st, e.conn, e.msg.data, e.msg.fds)
  }

  ghost predicate HonoredWipe(st: State, e: Event) {
    e.Deliver? && e.msg.Datagram? && IsKind(e.msg.data, WIPE) && e.conn == st.attached
    && WipeReasonHonored(WipeReasonOf(e.msg.data))
  }

  /** Only an accepted store and an honored wipe, both by the attached connection, change the store. */
  lemma StoreChange(st: State, e: Event)
    ensures var st' := Step(st, e);
      if AcceptedStore(st, e) then st'.fds == e.msg.fds && st'.payload == e.msg.data[HEADER_BYTES..]
      else if HonoredWipe(st, e) then st'.fds == [] && st'.payload == []
      else st'.fds == st.fds && st'.payload == st.payload
  {
  }

  type Content = (seq<Fd>, Bytes)

  /** The descriptors a store message carries and the blob after its header. */
  ghost function ContentOf(e: Event): Content {
    if e.Deliver? && e.msg.Datagram? && |e.msg.data| >= HEADER_BYTES
    then (e.msg.fds, e.msg.data[HEADER_BYTES..])
    else ([], [])
  }

  ghost function StoreWrite(st: State, e: Event): (w: Change<Content>)
    ensures w.Put? ==> w.value == ContentOf(e)
  {
    if AcceptedStore(st, e) then Put(ContentOf(e))
    else if HonoredWipe(st, e) then Clear
    else Keep
  }

  ghost function StoreWrites(srv: Fd, evs: seq<Event>): (cs: seq<Change<Content>>)
    ensures |cs| == |evs|
    ensures forall i :: 0 <= i < |evs| ==> cs[i].Put? ==> cs[i].value == ContentOf(evs[i])
  {
    seq(|evs|, i requires 0 <= i < |evs| => StoreWrite(StateAt(srv, evs, i), evs[i]))
  }

  /** Event j was an accepted store, and no later event of evs was an accepted store or an honored wipe. */
  ghost predicate LastStore(srv: Fd, evs: seq<Event>, j: nat) {
    LastPut(StoreWrites(srv, evs), j)
  }

  ghost predicate StoreShows(st: State, v: Option<Content>) {
    match v
    case None => st.fds == [] && st.payload == []
    case Some(c) => st.fds != [] && st.fds == c.0 && st.payload == c.1
  }

  lemma StoreStep(st: State, e: Event, v: Option<Content>)
    requires StoreShows(st, v)
    ensures StoreShows(Step(st, e), Applied(v, StoreWrite(st, e)))
  {
    StoreChange(st, e);
  }

  lemma StoreWritesPrefix(srv: Fd, evs: seq<Event>)
    requires evs != []
    ensures var n := |evs| - 1;
      StoreWrites(srv, evs)[..n] == StoreWrites(srv, evs[..n])
      && StoreWrites(srv, evs)[n] == StoreWrite(StateAt(srv, evs, n), evs[n])
  {
    var n := |evs| - 1;
    forall k: nat | k < n ensures StoreWrites(srv, evs)[k] == StoreWrites(srv, evs[..n])[k] {
      PrefixStates(srv, evs, n, k);
    }
  }

  lemma {:induction false} StoreIsValue(srv: Fd, evs: seq<Event>)
    ensures StoreShows(Reach(srv, evs).st, Value(StoreWrites(srv, evs)))
    decreases |evs|
  {
    if evs != [] {
      var n := |evs| - 1;
      StoreIsValue(srv, evs[..n]);
      StoreWritesPrefix(srv, evs);
      StoreStep(StateAt(srv, evs, n), evs[n], Value(StoreWrites(srv, evs[..n])));
    }
  }

  /** The store is what the last surviving accepted store put there, and empty when none survives. */
  lemma StoreIsLastAccepted(srv: Fd, evs: seq<Event>)
    ensures var st := Reach(srv, evs).st;
      && (st.fds == [] <==> forall j: nat :: !LastStore(srv, evs, j))
      && forall j: nat :: LastStore(srv, evs, j) ==> (st.fds, st.payload) == ContentOf(evs[j])
  {
    StoreIsValue(srv, evs);
    LastStoreIsValue(srv, evs);
  }

  lemma LastStoreIsValue(srv: Fd, evs: seq<Event>)
    ensures var v := Value(StoreWrites(srv, evs));
      && (v == None <==> forall j: nat :: !LastStore(srv, evs, j))
      && forall j: nat :: LastStore(srv, evs, j) ==> v == Some(ContentOf(evs[j]))
  {
    var cs := StoreWrites(srv, evs);
    ValueIsLastPut(cs);
    if Value(cs) != None {
      var j: nat :| LastPut(cs, j);
      assert LastStore(srv, evs, j);
    }
  }

  /** What a warm or an empty reply in a step says about the state it was sent in. */
  lemma AttachReplies(st: State, e: Event, c: Fd, reply: Reply, passed: seq<Fd>)
    requires reply.AttachWarm? || reply.AttachEmpty?
    ensures Sent(c, reply, passed) in Actions(st, e)
      <==> AttachGranted(st, e) && c == e.conn && passed == st.fds
           && reply == if st.fds == [] then AttachEmpty else AttachWarm(|st.fds|, st.payload)
  {
    if e.Deliver? {
      var o := Handle(st, e.conn, e.msg);
      var a := Sent(c, reply, passed);
      assert a in Actions(st, e) <==> a in o.actions;
      if e.msg.Datagram? {
        var data, fds := e.msg.data, e.msg.fds;
        assert a !in Closing(fds) && a !in Closing(st.fds);
        if IsKind(data, ATTACH) {
          assert o.actions == Closing(fds) + [o.actions[|fds|]];
        }
      }
    }
  }

  /**
   * A warm reply, wherever in a run it is sent, carries exactly the descriptors
   * and the blob of the last accepted store that no honored wipe followed; the
   * blob describes one segment per descriptor after the first.
   */
  lemma WarmReplyCarriesLastStore(srv: Fd, evs: seq<Event>, i: nat, c: Fd, n: nat, blob: Bytes, passed: seq<Fd>)
    requires Run(srv, evs) && i < |evs|
    requires Sent(c, AttachWarm(n, blob), passed) in Actions(StateAt(srv, evs, i), evs[i])
    ensures exists j: nat :: LastStore(srv, evs[..i], j) && (passed, blob) == ContentOf(evs[j])
    ensures n == |passed| && |blob| == (n - 1) * SEGMENT_BYTES
  {
    AttachReplies(StateAt(srv, evs, i), evs[i], c, AttachWarm(n, blob), passed);
    StoreIsLastAccepted(srv, evs[..i]);
    var j: nat :| LastStore(srv, evs[..i], j);
    assert evs[..i][j] == evs[j];
    AtStep(srv, evs, i);
  }

  /** An empty reply is sent exactly when an attach is granted and no accepted store survives. */
  lemma EmptyReplyMeansNoStore(srv: Fd, evs: seq<Event>, i: nat)
    requires i < |evs|
    ensures var st := StateAt(srv, evs, i);
      Sent(evs[i].conn, AttachEmpty, []) in Actions(st, evs[i])
      <==> AttachGranted(st, evs[i]) && forall j: nat :: !LastStore(srv, evs[..i], j)
  {
    AttachReplies(StateAt(srv, evs, i), evs[i], evs[i].conn, AttachEmpty, []);
    StoreIsLastAccepted(srv, evs[..i]);
  }

  // ---- one owner at a time --------------------------------------------------

  ghost predicate AttachGranted(st: State, e: Event) {
    e.Deliver? && e.msg.Datagram? && IsKind(e.msg.data, ATTACH) && (st.attached < 0 || st.attached == e.conn)
  }

  /** The step ends e's connection. */
  ghost predicate Ends(st: State, e: Event) {
    e.Deliver? && !Handle(st, e.conn, e.msg).keep
  }

  ghost function OwnerWrite(st: State, e: Event): Change<Fd> {
    if AttachGranted(st, e) then Put(e.conn)
    else if Ends(st, e) && e.conn == st.attached then Clear
    else Keep
  }

  ghost function OwnerWrites(srv: Fd, evs: seq<Event>): (cs: seq<Change<Fd>>)
    ensures |cs| == |evs|
  {
    seq(|evs|, i requires 0 <= i < |evs| => OwnerWrite(StateAt(srv, evs, i), evs[i]))
  }

  lemma AttachedChange(st: State, e: Event)
    ensures var st' := Step(st, e);
      match OwnerWrite(st, e)
      case Put(c) => st'.attached == c
      case Clear => st'.attached == NONE
      case Keep => st'.attached == st.attached
  {
  }

  lemma OwnerWritesPrefix(srv: Fd, evs: seq<Event>)
    requires evs != []
    ensures var n := |evs| - 1;
      OwnerWrites(srv, evs)[..n] == OwnerWrites(srv, evs[..n])
      && OwnerWrites(srv, evs)[n] == OwnerWrite(StateAt(srv, evs, n), evs[n])
  {
    var n := |evs| - 1;
    forall k: nat | k < n ensures OwnerWrites(srv, evs)[k] == OwnerWrites(srv, evs[..n])[k] {
      PrefixStates(srv, evs, n, k);
    }
  }

  lemma {:induction false} AttachedIsValue(srv: Fd, evs: seq<Event>)
    ensures Reach(srv, evs).st.attached == match Value(OwnerWrites(srv, evs)) case None => NONE case Some(c) => c
    decreases |evs|
  {
    if evs != [] {
      var n := |evs| - 1;
      AttachedIsValue(srv, evs[..n]);
      OwnerWritesPrefix(srv, evs);
      AttachedChange(StateAt(srv, evs, n), evs[n]);
    }
  }

  /** A connection is attached exactly when its granted attach is the last one and it has not ended since. */
  lemma AttachedIsLastGranted(srv: Fd, evs: seq<Event>, c: Fd)
    requires c >= 0
    ensures Reach(srv, evs).st.attached == c
      <==> exists j: nat :: LastPut(OwnerWrites(srv, evs), j) && evs[j].conn == c
  {
    AttachedIsValue(srv, evs);
    ValueIsLastPut(OwnerWrites(srv, evs));
  }

  lemma OtherChangesNothing(st: State, e: Event)
    requires st.attached >= 0 && (e.Deliver? ==> e.conn != st.attached)
    ensures var st' := Step(st, e);
      st'.attached == st.attached && st'.fds == st.fds && st'.payload == st.payload
  {
    AttachedChange(st, e);
    StoreChange(st, e);
  }

  /**
   * Exclusion. From a moment when c is attached, as long as c itself sends
   * nothing, no accept and no message of any other connection changes who is
   * attached or what is stored.
   */
  lemma {:induction false} OthersChangeNothing(srv: Fd, evs: seq<Event>, i: nat, k: nat, c: Fd)
    requires i <= k <= |evs| && c >= 0 && StateAt(srv, evs, i).attached == c
    requires forall m | i <= m < k :: evs[m].Deliver? ==> evs[m].conn != c
    ensures var a, b := StateAt(srv, evs, i), StateAt(srv, evs, k);
      b.attached == c && b.fds == a.fds && b.payload == a.payload
    decreases k
  {
    if i < k {
      OthersChangeNothing(srv, evs, i, k - 1, c);
      StateAfter(srv, evs, k - 1);
      OtherChangesNothing(StateAt(srv, evs, k - 1), evs[k - 1]);
    }
  }
}
