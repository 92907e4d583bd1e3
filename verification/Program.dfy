/**
 The program of a session, as the calls it makes on the network: which sequences
 of calls a session can make whose messages run in the mail server's order, with
 any message completed, failed or aborted anywhere.
 */
module Program {
  import opened Bytes
  import opened Wire
  import opened Message
  import opened Network

  datatype Outcome =
    | Unopened     // no connection could be had
    | Failed       // a callback gave SMFIS_ACCEPT; the socket is kept
    | Aborted      // the mail server aborted; the socket is closed
    | Completed    // the last callback gave SMFIS_CONTINUE

  /** The events of these calls, one after another. */
  function Events(calls: seq<Call>): seq<Event> {
    if calls == [] then []
    else
      var n := |calls| - 1;
      Events(calls[..n]) + if calls[n].Adds? then calls[n].events else []
  }

  /** The number of connections these calls made. */
  function Made(calls: seq<Call>): nat {
    if calls == [] then 0
    else
      var n := |calls| - 1;
      Made(calls[..n]) + if calls[n].Opens? then 1 else 0
  }

  lemma {:induction false} MadeAreReplayed(calls: seq<Call>)
    ensures |Replay(calls)| == Made(calls)
  {
    if calls != [] {
      MadeAreReplayed(calls[..|calls| - 1]);
    }
  }

  function Shut(fd: int, outcome: Outcome): seq<Call> {
    if outcome.Aborted? then [Shuts(fd)] else []
  }

  /** The calls before the close of an aborted message, or all of them. */
  function Said(calls: seq<Call>, outcome: Outcome): seq<Call> {
    if outcome.Aborted? && calls != [] then calls[..|calls| - 1] else calls
  }

  /**
   The calls of one message on connection `fd`: events that add up to its conversation,
   or to a proper prefix of it, and a close if it was aborted.
   */
  predicate MailCalls(helo: seq<byte>, m: Mail, outcome: Outcome, fd: int, calls: seq<Call>) {
    var said := Said(calls, outcome);
    && calls == said + Shut(fd, outcome) && Talked([], said, fd)
    && if outcome.Completed? then Events(said) == MailLog(helo, m) else Events(said) < MailLog(helo, m)
  }

  /** The calls of one message, when `made` connections were made before and `fd` is the open one, or -1. */
  predicate JobCalls(helo: seq<byte>, m: Mail, outcome: Outcome, made: nat, fd: int, calls: seq<Call>) {
    if outcome.Unopened? then fd == -1 && NotOpened([], calls, made)
    else
      && Greets(made, fd) <= calls
      && MailCalls(helo, m, outcome, if fd == -1 then made else fd, calls[|Greets(made, fd)|..])
  }

  /** The open connection after a message. */
  function NextFd(made: nat, fd: int, outcome: Outcome): int {
    if outcome.Unopened? || outcome.Aborted? then -1 else if fd == -1 then made else fd
  }

  /** A session so far: its messages, each with its outcome and its calls. */
  datatype Course =
    | Begun
    | Then(before: Course, mail: Mail, outcome: Outcome, calls: seq<Call>)

  function AllCalls(course: Course): seq<Call> {
    match course
    case Begun => []
    case Then(before, _, _, calls) => AllCalls(before) + calls
  }

  /** The connection that is open, or -1. */
  function OpenFd(course: Course): int {
    match course
    case Begun => -1
    case Then(before, _, outcome, _) => NextFd(Made(AllCalls(before)), OpenFd(before), outcome)
  }

  /** The messages that were run on some connection, with their outcomes, in order. */
  function RanIn(course: Course): seq<(Mail, Outcome)> {
    match course
    case Begun => []
    case Then(before, mail, outcome, _) => RanIn(before) + if outcome.Unopened? then [] else [(mail, outcome)]
  }

  /** Each message made the calls of a message. */
  predicate Lawful(helo: seq<byte>, course: Course) {
    match course
    case Begun => true
    case Then(before, mail, outcome, calls) =>
      Lawful(helo, before) && JobCalls(helo, mail, outcome, Made(AllCalls(before)), OpenFd(before), calls)
  }

  /** The course is lawful, made these calls, and has this connection open. */
  predicate Tells(helo: seq<byte>, course: Course, calls: seq<Call>, fd: int) {
    Lawful(helo, course) && AllCalls(course) == calls && OpenFd(course) == fd
  }

  lemma TellsMore(
    helo: seq<byte>, course: Course, calls: seq<Call>, fd: int, m: Mail, outcome: Outcome, more: seq<Call>)
    requires Tells(helo, course, calls, fd) && JobCalls(helo, m, outcome, Made(calls), fd, more)
    ensures Tells(helo, Then(course, m, outcome, more), calls + more, NextFd(Made(calls), fd, outcome))
  {
  }

  /** All the calls of a session, with its close. */
  function SessionCalls(course: Course): seq<Call> {
    AllCalls(course) + Closing(OpenFd(course))
  }

  // ---------------------------------------------------------------- what such calls do

  lemma {:induction false} ReplayTalk(before: seq<Call>, said: seq<Call>, fd: int)
    requires IsOpen(Replay(before), fd) && Talked([], said, fd)
    ensures Replay(before + said) == Logged(Replay(before), fd, Events(said))
    decreases |said|
  {
    var conns := Replay(before);
    if said == [] {
      assert before + said == before && conns[fd].log + [] == conns[fd].log;
    } else {
      var n := |said| - 1;
      var front, last := said[..n], said[n];
      ReplayTalk(before, front, fd);
      assert before + said == before + front + [last];
      ReplayOneMore(before + front, last);
      Associates(conns[fd].log, Events(front), last.events);
    }
  }

  /** `said` on connection `fd`, and a close if the message was aborted. */
  lemma ReplayMail(base: seq<Call>, said: seq<Call>, fd: int, outcome: Outcome)
    requires IsOpen(Replay(base), fd) && Talked([], said, fd)
    ensures var conns := Replay(base);
            Replay(base + (said + Shut(fd, outcome))) ==
            conns[fd := Connection(conns[fd].log + Events(said), !outcome.Aborted?)]
  {
    ReplayTalk(base, said, fd);
    if outcome.Aborted? {
      Associates(base, said, [Shuts(fd)]);
      ReplayOneMore(base + said, Shuts(fd));
    } else {
      assert said + [] == said;
    }
  }

  /** Cutting two parts off, one after the other or both at once. */
  lemma TwoCuts<T>(a: seq<T>, b: seq<T>, all: seq<T>)
    requires a + b <= all
    ensures a <= all && b <= all[|a|..] && all[|a|..][|b|..] == all[|a + b|..]
  {
    var c := all[|a + b|..];
    assert all == (a + b) + c;
    Associates(a, b, c);
    assert all[|a|..] == b + c;
  }

  lemma ReplayNotOpened(before: seq<Call>, calls: seq<Call>)
    requires NotOpened([], calls, |Replay(before)|)
    ensures || Replay(before + calls) == Replay(before)
            || Replay(before + calls) == Replay(before) + [Connection([], false)]
  {
    if calls == [] {
      assert before + calls == before;
    } else {
      assert before + calls == before + [Opens] + [calls[1]];
      ReplayOneMore(before, Opens);
      ReplayOneMore(before + [Opens], calls[1]);
    }
  }

  lemma ReplayClosing(before: seq<Call>, fd: int)
    requires fd == -1 || IsOpen(Replay(before), fd)
    ensures Replay(before + Closing(fd)) == Closed(Replay(before), fd)
  {
    if fd == -1 {
      assert before + [] == before;
    } else {
      ReplayOneMore(before, Shuts(fd));
    }
  }

  lemma ReplayGreets(before: seq<Call>)
    ensures Replay(before + Greets(|Replay(before)|, -1)) == Replay(before) + [Connection([Reply], true)]
  {
    var made := |Replay(before)|;
    assert before + Greets(made, -1) == before + [Opens] + [Adds(made, [Reply])];
    ReplayOneMore(before, Opens);
    ReplayOneMore(before + [Opens], Adds(made, [Reply]));
    assert [] + [Reply] == [Reply];
  }
}
