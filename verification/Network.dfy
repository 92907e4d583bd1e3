/**
 The kernel's side of the copy connections. How much a `write` takes, and
 whether any call fails, is left open: every outcome the kernel may choose is
 covered.
 */
module Network {
  import opened Bytes
  import opened Wire

  datatype Connection = Connection(log: seq<Event>, open: bool)

  predicate IsOpen(conns: seq<Connection>, fd: int) {
    0 <= fd < |conns| && conns[fd].open
  }

  function Logged(conns: seq<Connection>, fd: int, events: seq<Event>): seq<Connection>
    requires IsOpen(conns, fd)
  {
    conns[fd := Connection(conns[fd].log + events, true)]
  }

  function Closed(conns: seq<Connection>, fd: int): seq<Connection> {
    if IsOpen(conns, fd) then conns[fd := Connection(conns[fd].log, false)] else conns
  }

  /** What the kernel was made to do to the connections. */
  datatype Call =
    | Opens                                  // a new connection, with the next number
    | Adds(fd: int, events: seq<Event>)      // events on a connection
    | Shuts(fd: int)                         // a close

  function Does(conns: seq<Connection>, call: Call): seq<Connection> {
    match call
    case Opens => conns + [Connection([], true)]
    case Adds(fd, events) => if IsOpen(conns, fd) then Logged(conns, fd, events) else conns
    case Shuts(fd) => Closed(conns, fd)
  }

  /** The connections after these calls, from none. */
  function Replay(calls: seq<Call>): seq<Connection> {
    if calls == [] then [] else Does(Replay(calls[..|calls| - 1]), calls[|calls| - 1])
  }

  lemma ReplayOneMore(calls: seq<Call>, call: Call)
    ensures Replay(calls + [call]) == Does(Replay(calls), call)
  {
    assert (calls + [call])[..|calls|] == calls;
  }

  /** Between `before` and `after`, no call was made but events on connection `fd`. */
  predicate Talked(before: seq<Call>, after: seq<Call>, fd: int) {
    before <= after && forall k :: |before| <= k < |after| ==> after[k].Adds? && after[k].fd == fd
  }

  /** The calls that give a session a greeted connection, number `made`, if it has none. */
  function Greets(made: nat, socket: int): seq<Call> {
    if socket == -1 then [Opens, Adds(made, [Reply])] else []
  }

  /** Between `before` and `after`, nothing, or an attempt to open connection `made` that failed. */
  predicate NotOpened(before: seq<Call>, after: seq<Call>, made: nat) {
    after == before || after == before + [Opens, Shuts(made)]
  }

  lemma TwoMore<T>(before: seq<T>, a: T, b: T)
    ensures before + [a] + [b] == before + [a, b]
  {
  }

  function Closing(socket: int): seq<Call> {
    if socket == -1 then [] else [Shuts(socket)]
  }

  /** Between these counts of refused calls, none was refused if all went well, and some if not. */
  predicate Refusals(before: nat, after: nat, ok: bool) {
    before <= after && (ok <==> after == before)
  }

  class Net {
    var conns: seq<Connection>     // every connection made, by its number
    ghost var calls: seq<Call>     // every call that had an effect
    ghost var refused: nat         // how many calls the kernel has refused

    ghost predicate Valid()
      reads this
    {
      conns == Replay(calls)
    }

    constructor ()
      ensures Valid() && conns == [] && calls == []
    {
      conns := [];
      calls := [];
      refused := 0;
    }

    /** Notes a call that has just been carried out. */
    ghost method Note(call: Call)
      requires conns == Does(Replay(calls), call)
      modifies this`calls
      ensures Valid() && calls == old(calls) + [call]
    {
      ReplayOneMore(calls, call);
      calls := calls + [call];
    }

    method Socket() returns (fd: int)
      requires Valid()
      modifies this
      ensures Valid() && calls == old(calls) + if fd == -1 then [] else [Opens]
      ensures fd == -1 ==> conns == old(conns)
      ensures fd != -1 ==> fd == |old(conns)| && conns == old(conns) + [Connection([], true)]
      ensures Refusals(old(refused), refused, fd != -1)
    {
      var can: bool := *;
      if !can {
        refused := refused + 1;
        return -1;
      }
      fd := |conns|;
      conns := conns + [Connection([], true)];
      Note(Opens);
    }

    method Connect(fd: int) returns (r: int)
      modifies this`refused
      ensures r == 0 || r == -1
      ensures Refusals(old(refused), refused, r == 0)
    {
      var can: bool := *;
      r := if can then 0 else -1;
      refused := if can then refused else refused + 1;
    }

    method Close(fd: int)
      requires Valid()
      modifies this
      ensures Valid() && calls == old(calls) + [Shuts(fd)]
      ensures conns == Closed(old(conns), fd) && refused == old(refused)
    {
      conns := Closed(conns, fd);
      Note(Shuts(fd));
    }

    /** Takes between one and all of the bytes, or fails. */
    method Write(fd: int, buf: seq<byte>) returns (size: int)
      requires Valid() && buf != []
      modifies this
      ensures size == -1 || 1 <= size <= |buf|
      ensures Valid() && calls == old(calls) + if size == -1 then [] else [Adds(fd, Say(buf[..size]))]
      ensures size == -1 ==> conns == old(conns)
      ensures size != -1 ==> IsOpen(old(conns), fd) && conns == Logged(old(conns), fd, Say(buf[..size]))
      ensures Refusals(old(refused), refused, size != -1)
    {
      size := *;
      if !IsOpen(conns, fd) || size < 1 || size > |buf| {
        refused := refused + 1;
        return -1;
      }
      conns := Logged(conns, fd, Say(buf[..size]));
      Note(Adds(fd, Say(buf[..size])));
    }

    /** Gives a reply, the end of the file, or an error; the caller cannot tell the first two apart. */
    method Read(fd: int) returns (n: int)
      requires Valid()
      modifies this
      ensures Valid() && calls == old(calls) + if n == -1 then [] else [Adds(fd, [Reply])]
      ensures n == -1 || 0 <= n <= 1024
      ensures n == -1 ==> conns == old(conns)
      ensures n != -1 ==> IsOpen(old(conns), fd) && conns == Logged(old(conns), fd, [Reply])
      ensures Refusals(old(refused), refused, n != -1)
    {
      n := *;
      if !IsOpen(conns, fd) || n < 0 || n > 1024 {
        refused := refused + 1;
        return -1;
      }
      conns := Logged(conns, fd, [Reply]);
      Note(Adds(fd, [Reply]));
    }
  }

  // ---------------------------------------------------------------- what a call did to the network

  /**
   From `before` to `after`, only connection `fd` changed, and only its log: it
   gained all of `full` on success and a proper prefix of it on failure. On a bad
   descriptor nothing changes, and only saying nothing can succeed.
   */
  ghost predicate Wrote(
    before: seq<Connection>, after: seq<Connection>, fd: int, full: seq<Event>, ok: bool)
  {
    if IsOpen(before, fd) then
      && |after| == |before|
      && after == before[fd := Connection(after[fd].log, true)]
      && Progress(before[fd].log, after[fd].log, full, ok)
    else
      after == before && (ok ==> full == [])
  }

  lemma WroteStops(before: seq<Connection>, after: seq<Connection>, fd: int, part: seq<Event>, more: seq<Event>)
    requires Wrote(before, after, fd, part, false)
    ensures Wrote(before, after, fd, part + more, false)
  {
    if IsOpen(before, fd) {
      ProgressStops(before[fd].log, after[fd].log, part, more);
    }
  }

  lemma WroteContinues(
    before: seq<Connection>, middle: seq<Connection>, after: seq<Connection>,
    fd: int, first: seq<Event>, second: seq<Event>, ok: bool)
    requires Wrote(before, middle, fd, first, true)
    requires Wrote(middle, after, fd, second, ok)
    ensures Wrote(before, after, fd, first + second, ok)
  {
    if IsOpen(before, fd) {
      ProgressContinues(before[fd].log, middle[fd].log, after[fd].log, first, second, ok);
    }
  }

  lemma WroteNothing(conns: seq<Connection>, fd: int)
    ensures Wrote(conns, conns, fd, [], true)
  {
    if IsOpen(conns, fd) {
      assert conns[fd].log + [] == conns[fd].log;
    }
  }

  /** A new connection on which reading the greeting was tried. */
  lemma GreetingTried(conns: seq<Connection>, after: seq<Connection>, ok: bool)
    requires Wrote(conns + [Connection([], true)], after, |conns|, [Reply], ok)
    ensures if ok then after == conns + [Connection([Reply], true)]
            else Closed(after, |conns|) == conns + [Connection([], false)]
  {
    assert [] + [Reply] == [Reply];
  }

  // ---------------------------------------------------------------- write_msg and read_msg

  method WriteMsg(net: Net, fd: int, buf: seq<byte>, len: nat) returns (r: int)
    requires net.Valid() && len <= |buf|
    modifies net
    ensures net.Valid() && Talked(old(net.calls), net.calls, fd)
    ensures r == 0 || r == -1
    ensures Refusals(old(net.refused), net.refused, r == 0)
    ensures Wrote(old(net.conns), net.conns, fd, Say(buf[..len]), r == 0)
  {
    var leftLen := len;
    var at := 0;
    WroteNothing(net.conns, fd);
    while leftLen > 0
      invariant 0 <= at && 0 <= leftLen && at + leftLen == len
      invariant net.Valid() && Talked(old(net.calls), net.calls, fd) && net.refused == old(net.refused)
      invariant Wrote(old(net.conns), net.conns, fd, Say(buf[..at]), true)
      decreases leftLen
    {
      ghost var middle := net.conns;
      var size := net.Write(fd, buf[at..len]);
      if size < 0 {
        FailedWrite(old(net.conns), middle, fd, buf, at, len);
        return -1;
      }
      PartialWrite(old(net.conns), middle, net.conns, fd, buf, at, size, len);
      at := at + size;
      leftLen := leftLen - size;
    }
    return 0;
  }

  lemma FailedWrite(before: seq<Connection>, now: seq<Connection>, fd: int, buf: seq<byte>, at: nat, len: nat)
    requires at < len <= |buf|
    requires Wrote(before, now, fd, Say(buf[..at]), true)
    ensures Wrote(before, now, fd, Say(buf[..len]), false)
  {
    assert buf[..len] == buf[..at] + buf[at..len];
    SayConcat(buf[..at], buf[at..len]);
    if IsOpen(before, fd) {
      assert before[fd].log + Say(buf[..len]) == now[fd].log + Say(buf[at..len]);
    }
  }

  lemma PartialWrite(
    before: seq<Connection>, middle: seq<Connection>, now: seq<Connection>,
    fd: int, buf: seq<byte>, at: nat, size: nat, len: nat)
    requires at + size <= len <= |buf|
    requires Wrote(before, middle, fd, Say(buf[..at]), true)
    requires IsOpen(middle, fd) && now == Logged(middle, fd, Say(buf[at..len][..size]))
    ensures Wrote(before, now, fd, Say(buf[..at + size]), true)
  {
    assert buf[..at + size] == buf[..at] + buf[at..len][..size];
    SayConcat(buf[..at], buf[at..len][..size]);
    WroteContinues(before, middle, now, fd, Say(buf[..at]), Say(buf[at..len][..size]), true);
  }

  /** A write of a whole string. */
  method WriteAll(net: Net, fd: int, buf: seq<byte>) returns (r: int)
    requires net.Valid()
    modifies net
    ensures net.Valid() && Talked(old(net.calls), net.calls, fd)
    ensures r == 0 || r == -1
    ensures Refusals(old(net.refused), net.refused, r == 0)
    ensures Wrote(old(net.conns), net.conns, fd, Say(buf), r == 0)
  {
    r := WriteMsg(net, fd, buf, |buf|);
    assert buf[..|buf|] == buf;
  }

  method ReadMsg(net: Net, fd: int) returns (r: int)
    requires net.Valid()
    modifies net
    ensures net.Valid() && Talked(old(net.calls), net.calls, fd)
    ensures r == 0 || r == -1
    ensures Refusals(old(net.refused), net.refused, r == 0)
    ensures net.calls == old(net.calls) + if r == 0 then [Adds(fd, [Reply])] else []
    ensures Wrote(old(net.conns), net.conns, fd, [Reply], r == 0)
  {
    var n := net.Read(fd);
    if n == -1 {
      return -1;
    }
    return 0;
  }
}
