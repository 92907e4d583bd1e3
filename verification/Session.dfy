/**
 The session object: src/smtp.c's conversation and src/milter.c's callbacks over
 it. Each method's contract says what the call leaves on the network, in terms
 of the message alone; every failure leaves a proper prefix of it.
 */
module Session {
  import opened Bytes
  import opened Wire
  import opened Message
  import opened Network
  import opened Daemon
  import opened ConfigStore

  datatype Status = Continue | Accept

  /** The first LF at or after `from`, or -1. */
  function StrChr(s: seq<byte>, from: nat): (at: int)
    requires from <= |s|
    ensures at == -1 ==> LF !in s[from..]
    ensures at != -1 ==> from <= at < |s| && s[at] == LF && LF !in s[from..at]
    decreases |s| - from
  {
    if from == |s| then -1
    else if s[from] == LF then from
    else
      var at := StrChr(s, from + 1);
      assert s[from..] == [s[from]] + s[from + 1..];
      assert at != -1 ==> s[from..at] == [s[from]] + s[from + 1..at];
      at
  }

  /** The name in HELO: the configured one, or else what gethostname gave. */
  function HeloName(data: ConfigData, hostname: Option<seq<byte>>): seq<byte> {
    if data.heloDomain != [] then data.heloDomain
    else match hostname case Some(name) => name case None => []
  }

  class SessionData {
    const net: Net
    const store: Store
    const hostname: Option<seq<byte>>   // what gethostname gives; None if it fails

    var sdConfig: Addr
    var sdSocket: int

    constructor (net: Net, store: Store, hostname: Option<seq<byte>>, config: Addr)
      ensures this.net == net && this.store == store && this.hostname == hostname
      ensures sdConfig == config && sdSocket == -1
    {
      this.net := net;
      this.store := store;
      this.hostname := hostname;
      sdConfig := config;
      sdSocket := -1;
    }

    /** Store and network are sound, the session's pointer good, and its descriptor, if any, open. */
    ghost predicate Valid()
      reads this, store, net
    {
      store.Valid() && net.Valid() && sdConfig in store.heap && (sdSocket == -1 || IsOpen(net.conns, sdSocket))
    }

    function Config(): ConfigData
      requires sdConfig in store.heap
      reads this, store
    {
      store.heap[sdConfig].data
    }

    function Helo(): seq<byte>
      requires sdConfig in store.heap
      reads this, store
    {
      HeloName(Config(), hostname)
    }

    /** There is no name for HELO. */
    predicate Nameless()
      requires sdConfig in store.heap
      reads this, store
    {
      store.heap[sdConfig].data.heloDomain == [] && hostname.None?
    }

    // -------------------------------------------------------------- src/smtp.c

    /** Opens a connection unless there is one; a new one has read its greeting. */
    method StartSmtp() returns (fd: int)
      requires Valid()
      modifies net
      ensures net.Valid() && Refusals(old(net.refused), net.refused, fd != -1)
      ensures fd != -1 ==> net.calls == old(net.calls) + Greets(|old(net.conns)|, sdSocket)
      ensures fd == -1 ==> NotOpened(old(net.calls), net.calls, |old(net.conns)|)
      ensures old(sdSocket) != -1 ==> fd == old(sdSocket) && net.conns == old(net.conns)
      ensures old(sdSocket) == -1 && fd == -1 ==>
                net.conns == old(net.conns) || net.conns == old(net.conns) + [Connection([], false)]
      ensures old(sdSocket) == -1 && fd != -1 ==>
                fd == |old(net.conns)| && net.conns == old(net.conns) + [Connection([Reply], true)]
    {
      if sdSocket != -1 {
        return sdSocket;
      }
      fd := net.Socket();
      if fd >= 0 {
        TwoMore(old(net.calls), Opens, Adds(fd, [Reply]));
        fd := Greet(old(net.conns), old(net.calls), fd);
      }
    }

    /** The rest of start_smtp: connects the new descriptor and reads the greeting, or closes it. */
    method Greet(ghost conns: seq<Connection>, ghost calls: seq<Call>, newSocket: int) returns (fd: int)
      requires net.Valid() && newSocket == |conns|
      requires net.conns == conns + [Connection([], true)] && net.calls == calls + [Opens]
      modifies net
      ensures net.Valid() && (fd == newSocket || fd == -1)
      ensures Refusals(old(net.refused), net.refused, fd != -1)
      ensures fd == -1 ==>
                net.conns == conns + [Connection([], false)] && net.calls == calls + [Opens, Shuts(newSocket)]
      ensures fd != -1 ==>
                net.conns == conns + [Connection([Reply], true)] && net.calls == calls + [Opens] + [Adds(fd, [Reply])]
    {
      TwoMore(calls, Opens, Shuts(newSocket));
      var r := net.Connect(newSocket);
      if r != 0 {
        net.Close(newSocket);
        return -1;
      }
      r := ReadMsg(net, newSocket);
      GreetingTried(conns, net.conns, r == 0);
      if r < 0 {
        net.Close(newSocket);
        return -1;
      }
      return newSocket;
    }

    /**
     HELO with the configured name, or, if that is empty, with the one gethostname gives;
     then MAIL. With neither name, nothing is said.
     */
    method SendFrom() returns (r: int)
      requires Valid()
      modifies net
      ensures net.Valid() && Talked(old(net.calls), net.calls, sdSocket)
      ensures r == 0 || r == -1
      ensures Wrote(old(net.conns), net.conns, sdSocket, CallbackLog(Helo(), Envfrom), r == 0)
      ensures var name := store.heap[sdConfig].data.heloDomain;
              name != [] ==>
                Wrote(old(net.conns), net.conns, sdSocket,
                      Say(HeloLine(name)) + [Reply] + Say(MAIL_LINE) + [Reply], r == 0)
      ensures store.heap[sdConfig].data.heloDomain == [] && hostname.Some? ==>
                Wrote(old(net.conns), net.conns, sdSocket,
                      Say(HeloLine(hostname.value)) + [Reply] + Say(MAIL_LINE) + [Reply], r == 0)
      ensures if Nameless() then r == -1 && net.conns == old(net.conns) && net.refused == old(net.refused)
              else Refusals(old(net.refused), net.refused, r == 0)
    {
      ghost var start := net.conns;
      ghost var helo, mail := Say(HeloLine(Helo())), Say(MAIL_LINE);
      WroteNothing(start, sdSocket);
      var name := Config().heloDomain;
      if name == [] {
        match hostname {
          case None =>
            assert Wrote(start, net.conns, sdSocket, helo + [Reply] + mail + [Reply], false);
            return -1;
          case Some(host) =>
            name := host;
        }
      }
      r := WriteAll(net, sdSocket, HeloLine(name));
      if r < 0 {
        WroteStops(start, net.conns, sdSocket, helo, [Reply]);
        WroteStops(start, net.conns, sdSocket, helo + [Reply], mail);
        WroteStops(start, net.conns, sdSocket, helo + [Reply] + mail, [Reply]);
        return -1;
      }
      ghost var now := net.conns;
      r := ReadMsg(net, sdSocket);
      WroteContinues(start, now, net.conns, sdSocket, helo, [Reply], r == 0);
      if r < 0 {
        WroteStops(start, net.conns, sdSocket, helo + [Reply], mail);
        WroteStops(start, net.conns, sdSocket, helo + [Reply] + mail, [Reply]);
        return -1;
      }
      now := net.conns;
      r := WriteMsg(net, sdSocket, MAIL_LINE, 15);
      assert MAIL_LINE[..15] == MAIL_LINE;
      WroteContinues(start, now, net.conns, sdSocket, helo + [Reply], mail, r == 0);
      if r < 0 {
        WroteStops(start, net.conns, sdSocket, helo + [Reply] + mail, [Reply]);
        return -1;
      }
      now := net.conns;
      r := ReadMsg(net, sdSocket);
      WroteContinues(start, now, net.conns, sdSocket, helo + [Reply] + mail, [Reply], r == 0);
    }

    /** A line, and the reply to it. */
    method Ask(line: seq<byte>) returns (r: int)
      requires net.Valid()
      modifies net
      ensures net.Valid() && Talked(old(net.calls), net.calls, sdSocket)
      ensures r == 0 || r == -1
      ensures Refusals(old(net.refused), net.refused, r == 0)
      ensures Wrote(old(net.conns), net.conns, sdSocket, Say(line) + [Reply], r == 0)
    {
      r := WriteAll(net, sdSocket, line);
      if r < 0 {
        WroteStops(old(net.conns), net.conns, sdSocket, Say(line), [Reply]);
        return -1;
      }
      ghost var now := net.conns;
      r := ReadMsg(net, sdSocket);
      WroteContinues(old(net.conns), now, net.conns, sdSocket, Say(line), [Reply], r == 0);
    }

    method SendRcpt(rcpt: seq<byte>) returns (r: int)
      requires net.Valid()
      modifies net
      ensures net.Valid() && Talked(old(net.calls), net.calls, sdSocket)
      ensures r == 0 || r == -1
      ensures Refusals(old(net.refused), net.refused, r == 0)
      ensures Wrote(old(net.conns), net.conns, sdSocket, CallbackLog([], Envrcpt(rcpt)), r == 0)
    {
      r := Ask(RcptLine(rcpt));
    }

    method SendData() returns (r: int)
      requires net.Valid()
      modifies net
      ensures net.Valid() && Talked(old(net.calls), net.calls, sdSocket)
      ensures r == 0 || r == -1
      ensures Refusals(old(net.refused), net.refused, r == 0)
      ensures Wrote(old(net.conns), net.conns, sdSocket, CallbackLog([], Data), r == 0)
    {
      r := Ask(DATA_LINE);
    }

    /** The field, with the value's LFs turned into CRLFs line by line. */
    method SendHeader(name: seq<byte>, value: seq<byte>) returns (r: int)
      requires net.Valid()
      modifies net
      ensures net.Valid() && Talked(old(net.calls), net.calls, sdSocket)
      ensures r == 0 || r == -1
      ensures Refusals(old(net.refused), net.refused, r == 0)
      ensures Wrote(old(net.conns), net.conns, sdSocket, CallbackLog([], Field(Header(name, value))), r == 0)
    {
      ghost var start, calls, refused := net.conns, net.calls, net.refused;
      ghost var full := HeaderLines(Header(name, value));
      WroteNothing(start, sdSocket);
      r := Append(start, calls, refused, [], name, full);
      if r < 0 {
        return -1;
      }
      r := Append(start, calls, refused, name, [COLON], full);
      if r < 0 {
        return -1;
      }
      var lStart := 0;
      var lEnd := StrChr(value, 0);
      ghost var done := name + [COLON];
      assert done == DoneUpTo(name, value, 0);
      while lEnd != -1
        invariant 0 <= lStart <= |value| && lEnd == StrChr(value, lStart)
        invariant done == DoneUpTo(name, value, lStart) && Sending(start, calls, refused, done)
        decreases |value| - lStart
      {
        var line := value[lStart..lEnd];
        LinePrefixes(name, value, lStart, lEnd);
        r := AppendLine(start, calls, refused, done, line, full);
        if r < 0 {
          return -1;
        }
        done := done + line + CRLF;
        lStart := lEnd + 1;
        lEnd := StrChr(value, lStart);
      }
      var last := value[lStart..];
      LastPrefix(name, value, lStart);
      r := AppendLine(start, calls, refused, done, last, full);
    }

    /** So far, since `start` and `calls`, the session has written `done`, made no other calls, and none was refused. */
    ghost predicate Sending(start: seq<Connection>, calls: seq<Call>, refused: nat, done: seq<byte>)
      reads this, net
    {
      && net.Valid() && net.refused == refused
      && Talked(calls, net.calls, sdSocket) && Wrote(start, net.conns, sdSocket, Say(done), true)
    }

    /** Writes `part` after `done`, on the way to `full`. */
    method Append(
      ghost start: seq<Connection>, ghost calls: seq<Call>, ghost refused: nat, ghost done: seq<byte>,
      part: seq<byte>, ghost full: seq<byte>)
      returns (r: int)
      requires Sending(start, calls, refused, done) && done + part <= full
      modifies net
      ensures net.Valid() && Talked(calls, net.calls, sdSocket)
      ensures r == 0 || r == -1
      ensures Refusals(refused, net.refused, r == 0)
      ensures r == 0 ==> Sending(start, calls, refused, done + part)
      ensures r == -1 ==> Wrote(start, net.conns, sdSocket, Say(full), false)
    {
      ghost var now := net.conns;
      r := WriteAll(net, sdSocket, part);
      WroteContinues(start, now, net.conns, sdSocket, Say(done), Say(part), r == 0);
      SayConcat(done, part);
      if r == -1 {
        ghost var rest := full[|done + part|..];
        assert full == (done + part) + rest;
        SayConcat(done + part, rest);
        WroteStops(start, net.conns, sdSocket, Say(done + part), Say(rest));
      }
    }

    /** Writes `line` and a CRLF after `done`, on the way to `full`. */
    method AppendLine(
      ghost start: seq<Connection>, ghost calls: seq<Call>, ghost refused: nat, ghost done: seq<byte>,
      line: seq<byte>, ghost full: seq<byte>)
      returns (r: int)
      requires Sending(start, calls, refused, done) && done + line + CRLF <= full
      modifies net
      ensures net.Valid() && Talked(calls, net.calls, sdSocket)
      ensures r == 0 || r == -1
      ensures Refusals(refused, net.refused, r == 0)
      ensures r == 0 ==> Sending(start, calls, refused, done + line + CRLF)
      ensures r == -1 ==> Wrote(start, net.conns, sdSocket, Say(full), false)
    {
      StartsWith(done + line, CRLF);
      r := Append(start, calls, refused, done, line, full);
      if r < 0 {
        return -1;
      }
      r := Append(start, calls, refused, done + line, CRLF, full);
    }

    method SendEoh() returns (r: int)
      requires net.Valid()
      modifies net
      ensures net.Valid() && Talked(old(net.calls), net.calls, sdSocket)
      ensures r == 0 || r == -1
      ensures Refusals(old(net.refused), net.refused, r == 0)
      ensures Wrote(old(net.conns), net.conns, sdSocket, CallbackLog([], Eoh), r == 0)
    {
      r := WriteAll(net, sdSocket, CRLF);
    }

    method SendBody(body: seq<byte>, bodyLen: nat) returns (r: int)
      requires bodyLen <= |body|
      requires net.Valid()
      modifies net
      ensures net.Valid() && Talked(old(net.calls), net.calls, sdSocket)
      ensures r == 0 || r == -1
      ensures Refusals(old(net.refused), net.refused, r == 0)
      ensures Wrote(old(net.conns), net.conns, sdSocket, CallbackLog([], Body(body[..bodyLen])), r == 0)
    {
      r := WriteMsg(net, sdSocket, body, bodyLen);
    }

    method SendEom() returns (r: int)
      requires net.Valid()
      modifies net
      ensures net.Valid() && Talked(old(net.calls), net.calls, sdSocket)
      ensures r == 0 || r == -1
      ensures Refusals(old(net.refused), net.refused, r == 0)
      ensures Wrote(old(net.conns), net.conns, sdSocket, CallbackLog([], Eom), r == 0)
    {
      r := Ask(END_LINE);
    }

    // -------------------------------------------------------------- src/milter.c

    /** Opens the connection if needed, then greets and names the empty sender. */
    method MdfiEnvfrom() returns (status: Status)
      requires Valid()
      modifies this`sdSocket, net
      ensures Valid()
      ensures old(sdSocket) != -1 ==>
                && sdSocket == old(sdSocket)
                && Wrote(old(net.conns), net.conns, sdSocket, CallbackLog(Helo(), Envfrom), status == Continue)
      ensures old(sdSocket) == -1 && sdSocket != -1 ==>
                && sdSocket == |old(net.conns)|
                && Wrote(old(net.conns) + [Connection([Reply], true)], net.conns, sdSocket,
                         CallbackLog(Helo(), Envfrom), status == Continue)
      ensures old(sdSocket) == -1 && sdSocket == -1 ==>
                && status == Accept
                && (net.conns == old(net.conns) || net.conns == old(net.conns) + [Connection([], false)])
      ensures sdSocket != -1 ==>
                Talked(old(net.calls) + Greets(|old(net.conns)|, old(sdSocket)), net.calls, sdSocket)
      ensures sdSocket == -1 ==> NotOpened(old(net.calls), net.calls, |old(net.conns)|)
      ensures sdSocket == -1 ==> net.refused > old(net.refused)
      ensures sdSocket != -1 && Nameless() ==>
                && status == Accept
                && net.conns == old(net.conns) + if old(sdSocket) == -1 then [Connection([Reply], true)] else []
      ensures old(net.refused) <= net.refused
      ensures !Nameless() ==> Refusals(old(net.refused), net.refused, status == Continue)
    {
      sdSocket := StartSmtp();
      if sdSocket == -1 {
        return Accept;
      }
      var r := SendFrom();
      return if r == -1 then Accept else Continue;
    }

    /** The callbacks of a message after the first one. */
    method Dispatch(cb: Callback) returns (status: Status)
      requires Valid() && !cb.Envfrom?
      modifies net
      ensures Valid() && Talked(old(net.calls), net.calls, sdSocket)
      ensures Wrote(old(net.conns), net.conns, sdSocket, CallbackLog(Helo(), cb), status == Continue)
      ensures Refusals(old(net.refused), net.refused, status == Continue)
    {
      var r;
      match cb {
        case Envrcpt(rcpt) => r := SendRcpt(rcpt);
        case Data => r := SendData();
        case Field(header) => r := SendHeader(header.name, header.value);
        case Eoh => r := SendEoh();
        case Body(chunk) => assert chunk[..|chunk|] == chunk; r := SendBody(chunk, |chunk|);
        case Eom => r := SendEom();
      }
      status := if r == -1 then Accept else Continue;
    }

    method MdfiAbort() returns (status: Status)
      requires Valid()
      modifies this`sdSocket, net
      ensures status == Continue && sdSocket == -1 && Valid()
      ensures net.conns == Closed(old(net.conns), old(sdSocket))
      ensures net.calls == old(net.calls) + [Shuts(old(sdSocket))] && net.refused == old(net.refused)
    {
      net.Close(sdSocket);
      sdSocket := -1;
      status := Continue;
    }

    /** Closes the connection, if any, and gives the configuration back. */
    method MdfiClose() returns (status: Status)
      requires Valid()
      modifies net, store`heap
      ensures status == Continue && store.Valid() && net.Valid()
      ensures net.conns == Closed(old(net.conns), sdSocket)
      ensures net.calls == old(net.calls) + Closing(sdSocket) && net.refused == old(net.refused)
      ensures store.heap == Dropped(old(store.heap), sdConfig)
    {
      if sdSocket != -1 {
        net.Close(sdSocket);
      }
      store.ReleaseConfig(sdConfig);
      status := Continue;
    }
  }

  /** A new session takes the current configuration; `gotMemory` tells whether its memory could be had. */
  method MdfiConnect(net: Net, store: Store, hostname: Option<seq<byte>>, gotMemory: bool)
    returns (session: SessionData?, status: Status)
    requires store.Valid() && net.Valid()
    modifies store`heap
    ensures !gotMemory ==> session == null && status == Accept && store.heap == old(store.heap)
    ensures gotMemory ==>
              && session != null && fresh(session) && status == Continue
              && session.net == net && session.store == store && session.hostname == hostname
              && session.sdConfig == store.cur && session.sdSocket == -1 && session.Valid()
              && store.heap == Taken(old(store.heap), store.cur)
              && session.Config() == old(store.heap)[store.cur].data
  {
    if !gotMemory {
      return null, Accept;
    }
    var config := store.GetConfig();
    session := new SessionData(net, store, hostname, config);
    status := Continue;
  }

  // ---------------------------------------------------------------- the parts of a header field

  /** The field with the first `start` bytes of its value. */
  function DoneUpTo(name: seq<byte>, value: seq<byte>, start: nat): seq<byte>
    requires start <= |value|
  {
    name + [COLON] + ToWire(value[..start])
  }

  /** The parts written for one line of a value are parts of the whole field. */
  lemma LinePrefixes(name: seq<byte>, value: seq<byte>, start: nat, end: nat)
    requires start <= end < |value| && value[end] == LF && LF !in value[start..end]
    ensures var done := DoneUpTo(name, value, start); var full := HeaderLines(Header(name, value));
            && done + value[start..end] <= full
            && done + value[start..end] + CRLF <= full
            && done + value[start..end] + CRLF == DoneUpTo(name, value, end + 1)
  {
    var first, past, line := name + [COLON], ToWire(value[..start]), value[start..end];
    var written, rest := ToWire(value[..end + 1]), ToWire(value[end + 1..]);
    ToWireLine(value, start, end);
    Associates(first, past + line, CRLF);
    Associates(first, past, line);
    assert value == value[..end + 1] + value[end + 1..];
    ToWireConcat(value[..end + 1], value[end + 1..]);
    Associates(first, written, rest);
    StartsWith(first + written, rest);
    StartsWith(first + written + rest, CRLF);
    StartsWith(first + past + line, CRLF);
  }

  lemma LastPrefix(name: seq<byte>, value: seq<byte>, start: nat)
    requires start <= |value| && LF !in value[start..]
    ensures var done := DoneUpTo(name, value, start); var full := HeaderLines(Header(name, value));
            done + value[start..] <= full && done + value[start..] + CRLF == full
  {
    assert value == value[..start] + value[start..];
    ToWireConcat(value[..start], value[start..]);
    ToWireNoLf(value[start..]);
    Associates(name + [COLON], ToWire(value[..start]), value[start..]);
    StartsWith(name + [COLON] + ToWire(value[..start]) + value[start..], CRLF);
  }
}
