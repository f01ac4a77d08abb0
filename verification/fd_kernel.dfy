// One process's descriptor table, as the kernel keeps it: which numbers are
// open, and a ghost log of everything done to them.
module FdKernel {
  import opened ArenaProtocol

  datatype Action =
    | Opened(fd: Fd)
    | Closed(fd: Fd)
    | Read(fd: Fd)
    | Sent(fd: Fd, reply: Reply, passed: seq<Fd>)

  ghost predicate Distinct(s: seq<Fd>) {
    forall i, j :: 0 <= i < j < |s| ==> s[i] != s[j]
  }

  ghost function Elements(s: seq<Fd>): set<Fd> {
    set f | f in s
  }

  /** The members of s from f on. */
  ghost function Above(s: set<Fd>, f: Fd): set<Fd> {
    set x | x in s && x >= f
  }

  // ---- what a log means -----------------------------------------------------

  /** May a be performed when exactly the numbers in open are open? */
  ghost predicate Permitted(open: set<Fd>, a: Action) {
    match a
    case Opened(fd) => fd !in open
    case Closed(fd) => fd in open
    case Read(fd) => fd in open
    case Sent(fd, _, passed) => fd in open && forall f <- passed :: f in open
  }

  ghost function Perform(open: set<Fd>, a: Action): set<Fd> {
    match a
    case Opened(fd) => open + {fd}
    case Closed(fd) => open - {fd}
    case _ => open
  }

  /** Every action of log is permitted when its turn comes. */
  ghost predicate Legal(open: set<Fd>, log: seq<Action>)
    decreases |log|
  {
    log == [] || (Permitted(open, log[0]) && Legal(Perform(open, log[0]), log[1..]))
  }

  ghost function After(open: set<Fd>, log: seq<Action>): set<Fd>
    decreases |log|
  {
    if log == [] then open else After(Perform(open, log[0]), log[1..])
  }

  lemma {:induction false} LogConcat(open: set<Fd>, a: seq<Action>, b: seq<Action>)
    ensures After(open, a + b) == After(After(open, a), b)
    ensures Legal(open, a + b) <==> Legal(open, a) && Legal(After(open, a), b)
    decreases |a|
  {
    if a == [] {
      assert a + b == b;
    } else {
      assert (a + b)[1..] == a[1..] + b;
      LogConcat(Perform(open, a[0]), a[1..], b);
    }
  }

  lemma LogOne(open: set<Fd>, a: Action)
    ensures After(open, [a]) == Perform(open, a)
    ensures Legal(open, [a]) <==> Permitted(open, a)
  {
    assert [a][1..] == [];
  }

  /** A log permitted on its own stays permitted beside other open numbers that it never opens, and leaves them open. */
  lemma {:induction false} LogFrame(open: set<Fd>, others: set<Fd>, log: seq<Action>)
    requires Legal(open, log) && open !! others && forall f <- others :: Opened(f) !in log
    ensures Legal(open + others, log) && After(open + others, log) == After(open, log) + others
    ensures After(open, log) !! others
    decreases |log|
  {
    if log != [] {
      assert log[0] in log && forall a <- log[1..] :: a in log;
      assert Perform(open, log[0]) + others == Perform(open + others, log[0]);
      LogFrame(Perform(open, log[0]), others, log[1..]);
    }
  }

  function Opening(fds: seq<Fd>): (log: seq<Action>)
    ensures |log| == |fds|
  {
    seq(|fds|, i requires 0 <= i < |fds| => Opened(fds[i]))
  }

  function Closing(fds: seq<Fd>): (log: seq<Action>)
    ensures |log| == |fds|
  {
    seq(|fds|, i requires 0 <= i < |fds| => Closed(fds[i]))
  }

  lemma {:induction false} ClosingIsLegal(open: set<Fd>, fds: seq<Fd>)
    requires Distinct(fds) && Elements(fds) <= open
    ensures Legal(open, Closing(fds)) && After(open, Closing(fds)) == open - Elements(fds)
    decreases |fds|
  {
    if fds == [] {
      assert Closing(fds) == [];
    } else {
      assert fds[0] in Elements(fds);
      assert Closing(fds)[1..] == Closing(fds[1..]);
      assert Elements(fds) == {fds[0]} + Elements(fds[1..]);
      ClosingIsLegal(open - {fds[0]}, fds[1..]);
    }
  }

  lemma {:induction false} OpeningIsLegal(open: set<Fd>, fds: seq<Fd>)
    requires Distinct(fds) && Elements(fds) !! open
    ensures Legal(open, Opening(fds)) && After(open, Opening(fds)) == open + Elements(fds)
    decreases |fds|
  {
    if fds == [] {
      assert Opening(fds) == [];
    } else {
      assert fds[0] in Elements(fds);
      assert Opening(fds)[1..] == Opening(fds[1..]);
      assert Elements(fds) == {fds[0]} + Elements(fds[1..]);
      OpeningIsLegal(open + {fds[0]}, fds[1..]);
    }
  }

  // ---- closing exactly once -------------------------------------------------

  ghost function Opens(log: seq<Action>, fd: Fd): nat {
    if log == [] then 0 else (if log[0] == Opened(fd) then 1 else 0) + Opens(log[1..], fd)
  }

  ghost function Closes(log: seq<Action>, fd: Fd): nat {
    if log == [] then 0 else (if log[0] == Closed(fd) then 1 else 0) + Closes(log[1..], fd)
  }

  /**
   * In a legal log every number alternates between opened and closed: at each
   * point it has been closed as often as opened, or once less while it is open.
   * So no opening is closed twice and none that is gone was left unclosed.
   */
  lemma {:induction false} ClosedOncePerOpening(open: set<Fd>, log: seq<Action>, fd: Fd)
    requires Legal(open, log)
    ensures Opens(log, fd) + (if fd in open then 1 else 0)
         == Closes(log, fd) + (if fd in After(open, log) then 1 else 0)
    decreases |log|
  {
    if log != [] {
      ClosedOncePerOpening(Perform(open, log[0]), log[1..], fd);
    }
  }

  lemma {:induction false} CountConcat(a: seq<Action>, b: seq<Action>, fd: Fd)
    ensures Closes(a + b, fd) == Closes(a, fd) + Closes(b, fd)
    decreases |a|
  {
    if a == [] {
      assert a + b == b;
    } else {
      assert (a + b)[1..] == a[1..] + b;
      CountConcat(a[1..], b, fd);
    }
  }

  // ---- the table itself -----------------------------------------------------

  class Kernel {
    var open: set<Fd>
    ghost var log: seq<Action>

    ghost predicate Valid()
      reads this
    {
      Legal({}, log) && open == After({}, log)
    }

    constructor ()
      ensures Valid() && open == {} && log == []
    {
      open, log := {}, [];
    }

    ghost method Record(a: Action)
      requires Legal({}, log) && Permitted(After({}, log), a)
      modifies this`log
      ensures log == old(log) + [a]
      ensures Legal({}, log) && After({}, log) == Perform(After({}, old(log)), a)
    {
      LogConcat({}, log, [a]);
      LogOne(After({}, log), a);
      log := log + [a];
    }

    /** open/socket/accept succeeded: the kernel picked fd, some number that is not open. */
    method Open(fd: Fd)
      requires Valid() && fd !in open
      modifies this
      ensures Valid() && open == old(open) + {fd} && log == old(log) + [Opened(fd)]
    {
      open := open + {fd};
      Record(Opened(fd));
    }

    method Close(fd: Fd)
      requires Valid() && fd in open
      modifies this
      ensures Valid() && open == old(open) - {fd} && log == old(log) + [Closed(fd)]
    {
      open := open - {fd};
      Record(Closed(fd));
    }

    method CloseAll(fds: seq<Fd>)
      requires Valid() && Distinct(fds) && Elements(fds) <= open
      modifies this
      ensures Valid() && open == old(open) - Elements(fds) && log == old(log) + Closing(fds)
    {
      assert forall i :: 0 <= i < |fds| ==> fds[i] in Elements(fds);
      for i := 0 to |fds|
        invariant Valid() && log == old(log) + Closing(fds[..i])
        invariant open == old(open) - Elements(fds[..i])
      {
        assert fds[i] !in fds[..i];
        Close(fds[i]);
        assert Closing(fds[..i]) + [Closed(fds[i])] == Closing(fds[..i + 1]);
        assert Elements(fds[..i + 1]) == Elements(fds[..i]) + {fds[i]};
      }
      assert fds[..|fds|] == fds;
    }

    /** count numbers that are not open, arbitrary ones: what the kernel may pick for passed descriptors. */
    method FreeNumbers(count: nat) returns (numbers: seq<Fd>)
      ensures |numbers| == count && Distinct(numbers) && Elements(numbers) !! open && forall f <- numbers :: f >= 0
    {
      numbers := [];
      for i := 0 to count
        invariant |numbers| == i && Distinct(numbers) && Elements(numbers) !! open && forall f <- numbers :: f >= 0
      {
        var wish: Fd := *;
        var f := FreeFrom(open + (set n | n in numbers), wish);
        assert Elements(numbers + [f]) == Elements(numbers) + {f};
        numbers := numbers + [f];
      }
    }

    /** A number that is not taken: the one wished for, or the next free one. */
    method FreeFrom(taken: set<Fd>, wish: Fd) returns (f: Fd)
      ensures f >= 0 && f !in taken && (wish >= 0 && wish !in taken ==> f == wish)
    {
      f := if wish >= 0 then wish else 0;
      while f in taken
        invariant f >= 0 && (wish >= 0 && wish !in taken ==> f == wish)
        decreases |Above(taken, f)|
      {
        assert Above(taken, f) == Above(taken, f + 1) + {f};
        f := f + 1;
      }
    }

    /** recvmsg on conn: the descriptors in msg are installed under the numbers msg lists. */
    method Recv(conn: Fd, msg: Received)
      requires Valid() && conn in open
      requires Distinct(msg.fds) && Elements(msg.fds) !! open
      modifies this
      ensures Valid() && open == old(open) + Elements(msg.fds)
      ensures log == old(log) + [Read(conn)] + Opening(msg.fds)
    {
      Record(Read(conn));
      OpeningIsLegal(After({}, log), msg.fds);
      LogConcat({}, log, Opening(msg.fds));
      open := open + (set f | f in msg.fds);
      log := log + Opening(msg.fds);
    }

    method Send(fd: Fd, reply: Reply, passed: seq<Fd>)
      requires Valid() && fd in open && Elements(passed) <= open
      modifies this`log
      ensures Valid() && log == old(log) + [Sent(fd, reply, passed)]
    {
      assert forall f <- passed :: f in Elements(passed);
      Record(Sent(fd, reply, passed));
    }
  }
}
