/**
 The mail server's side: libmilter runs a session's callbacks one after another,
 message by message, may abort inside a message, and runs no further callback of
 a message after SMFIS_ACCEPT. These drivers run every such session, and say
 what it leaves on the network.
 */
module Libmilter {
  import opened Bytes
  import opened Wire
  import opened Message
  import opened Network
  import opened Program
  import opened ConfigStore
  import opened Session
  import opened DataReader
  import opened CopyServer

  /** What one message left on one connection. */
  datatype Segment = Segment(mail: Mail, outcome: Outcome, log: seq<Event>)

  /** All of the message's conversation if it was completed, else a proper prefix. */
  ghost predicate SegmentOk(helo: seq<byte>, seg: Segment) {
    && !seg.outcome.Unopened?
    && if seg.outcome.Completed? then seg.log == MailLog(helo, seg.mail) else seg.log < MailLog(helo, seg.mail)
  }

  function Flatten(segs: seq<Segment>): seq<Event> {
    if segs == [] then [] else Flatten(segs[..|segs| - 1]) + segs[|segs| - 1].log
  }

  /**
   The life of one connection: it never got a greeting, or it read one and then
   carried its messages' segments, of which an aborted one is the last.
   */
  ghost predicate LifeOk(helo: seq<byte>, conn: Connection, segs: seq<Segment>) {
    && (forall k :: 0 <= k < |segs| ==> SegmentOk(helo, segs[k]))
    && (forall k :: 0 <= k < |segs| && segs[k].outcome.Aborted? ==> k == |segs| - 1 && !conn.open)
    && if conn.log == [] then segs == [] && !conn.open else conn.log == [Reply] + Flatten(segs)
  }

  predicate EndsAborted(segs: seq<Segment>) {
    segs != [] && segs[|segs| - 1].outcome.Aborted?
  }

  /**
   Every connection a session made has such a life, and only the current one is open.
   A connection is given up for another one only when it never got a greeting, or
   after an abort: a message that was not aborted leaves its socket to the next one.
   */
  ghost predicate HistoryOk(helo: seq<byte>, conns: seq<Connection>, history: seq<seq<Segment>>, socket: int) {
    && |history| == |conns|
    && (forall c :: 0 <= c < |conns| ==> LifeOk(helo, conns[c], history[c]))
    && (forall c :: 0 <= c < |conns| ==> (conns[c].open <==> c == socket))
    && (socket == -1 || 0 <= socket < |conns|)
    && (forall c :: 0 <= c < |conns| - 1 && conns[c].log != [] ==> EndsAborted(history[c]))
  }

  // ---------------------------------------------------------------- one message

  /** The connections a message starts from: a new, greeted one is added when there is none. */
  function Base(conns: seq<Connection>, socket: int): seq<Connection> {
    if socket == -1 then conns + [Connection([Reply], true)] else conns
  }

  function BaseSocket(conns: seq<Connection>, socket: int): int {
    if socket == -1 then |conns| else socket
  }

  /** The callbacks of a message after the first one, or the last few of them. */
  ghost predicate Proper(script: seq<Callback>) {
    && (script != [] ==> script[|script| - 1] == Eom)
    && forall k :: 0 <= k < |script| ==> !script[k].Envfrom?
  }

  lemma {:induction false} EndsInEom(helo: seq<byte>, script: seq<Callback>)
    requires script != [] && Proper(script)
    ensures ScriptLog(helo, script) != []
  {
    if |script| > 1 {
      EndsInEom(helo, script[1..]);
    }
  }

  /** Connection `fd` gained all of the conversation `full` or a proper prefix, and is open unless aborted. */
  ghost predicate MailEnded(
    base: seq<Connection>, after: seq<Connection>, fd: int, full: seq<Event>, outcome: Outcome)
  {
    && IsOpen(base, fd) && |after| == |base|
    && after == base[fd := Connection(after[fd].log, !outcome.Aborted?)]
    && Progress(base[fd].log, after[fd].log, full, outcome.Completed?)
  }

  lemma MailEndedContinues(
    base: seq<Connection>, now: seq<Connection>, after: seq<Connection>, fd: int,
    first: seq<Event>, second: seq<Event>, outcome: Outcome)
    requires IsOpen(base, fd) && Wrote(base, now, fd, first, true)
    requires MailEnded(now, after, fd, second, outcome)
    ensures MailEnded(base, after, fd, first + second, outcome)
  {
    ProgressContinues(base[fd].log, now[fd].log, after[fd].log, first, second, outcome.Completed?);
  }

  lemma MailEndedStops(
    base: seq<Connection>, after: seq<Connection>, fd: int, first: seq<Event>, second: seq<Event>)
    requires IsOpen(base, fd) && Wrote(base, after, fd, first, false)
    ensures MailEnded(base, after, fd, first + second, Failed)
  {
    ProgressStops(base[fd].log, after[fd].log, first, second);
  }

  /** From `before` to `after`, the session talked on connection `fd`, and closed it if the message was aborted. */
  predicate MailTalked(before: seq<Call>, after: seq<Call>, fd: int, outcome: Outcome) {
    if outcome.Aborted? then
      |after| > 0 && after[|after| - 1] == Shuts(fd) && Talked(before, after[..|after| - 1], fd)
    else Talked(before, after, fd)
  }

  lemma TalkedOn(before: seq<Call>, now: seq<Call>, after: seq<Call>, fd: int, outcome: Outcome)
    requires Talked(before, now, fd) && MailTalked(now, after, fd, outcome)
    ensures MailTalked(before, after, fd, outcome)
  {
  }

  /**
   A message was run from one state of network and socket to another. Either no connection
   could be had; or the open connection, or a new and greeted one, gained the conversation
   `full` or a proper prefix of it, by events on that connection alone, and is closed if the
   message was aborted.
   */
  ghost predicate MailRun(
    full: seq<Event>, outcome: Outcome,
    conns: seq<Connection>, calls: seq<Call>, socket: int,
    conns': seq<Connection>, calls': seq<Call>, socket': int)
  {
    if outcome.Unopened? then
      && socket == -1 && socket' == -1
      && (conns' == conns || conns' == conns + [Connection([], false)])
      && NotOpened(calls, calls', |conns|)
    else
      var fd := BaseSocket(conns, socket);
      && socket' == (if outcome.Aborted? then -1 else fd)
      && MailEnded(Base(conns, socket), conns', fd, full, outcome)
      && MailTalked(calls + Greets(|conns|, socket), calls', fd, outcome)
  }

  /** Connection `fd` gained exactly these events. */
  predicate Gained(base: seq<Connection>, after: seq<Connection>, fd: int, events: seq<Event>) {
    0 <= fd < |base| == |after| && after[fd].log == base[fd].log + events
  }

  lemma GainedMore(
    base: seq<Connection>, now: seq<Connection>, after: seq<Connection>, fd: int,
    helo: seq<byte>, script: seq<Callback>, stop: nat)
    requires 0 < stop <= |script| && IsOpen(base, fd)
    requires Wrote(base, now, fd, CallbackLog(helo, script[0]), true)
    requires Gained(now, after, fd, ScriptLog(helo, script[1..][..stop - 1]))
    ensures Gained(base, after, fd, ScriptLog(helo, script[..stop]))
  {
    assert script[..stop][1..] == script[1..][..stop - 1];
    Associates(base[fd].log, CallbackLog(helo, script[0]), ScriptLog(helo, script[1..][..stop - 1]));
  }

  /**
   Why a message ended as it did. It fails, or gets no connection, if and only if the
   kernel refused a call or there is no name for HELO; otherwise it is aborted where
   it was to be, and completed if it was to be aborted nowhere.
   */
  predicate OutcomeCaused(outcome: Outcome, m: Mail, stop: nat, nameless: bool, before: nat, after: nat) {
    && before <= after
    && (outcome.Unopened? ==> after > before)
    && (outcome.Failed? || outcome.Unopened? <==> after > before || nameless)
    && (after == before && !nameless ==> outcome == if 0 < stop < |Script(m)| then Aborted else Completed)
  }

  /** A message's callbacks in order; before callback number `stop`, if that is inside the message, an abort. */
  method RunMail(s: SessionData, m: Mail, stop: nat) returns (outcome: Outcome)
    requires s.Valid()
    modifies s`sdSocket, s.net
    ensures s.Valid()
    ensures OutcomeCaused(outcome, m, stop, s.Nameless(), old(s.net.refused), s.net.refused)
    ensures outcome.Aborted? ==>
              Gained(Base(old(s.net.conns), old(s.sdSocket)), s.net.conns,
                     BaseSocket(old(s.net.conns), old(s.sdSocket)), ScriptLog(s.Helo(), Script(m)[..stop]))
    ensures s.Nameless() && !outcome.Unopened? ==> s.net.conns == Base(old(s.net.conns), old(s.sdSocket))
    ensures MailRun(MailLog(s.Helo(), m), outcome, old(s.net.conns), old(s.net.calls), old(s.sdSocket),
                    s.net.conns, s.net.calls, s.sdSocket)
  {
    var rest := Rest(m);
    ScriptIsMail(s.Helo(), m);
    assert Script(m)[1..] == rest;
    RestIsProper(m);
    ghost var base := Base(s.net.conns, s.sdSocket);
    ghost var fd := BaseSocket(s.net.conns, s.sdSocket);
    ghost var first := CallbackLog(s.Helo(), Envfrom);
    ghost var greeted := s.net.calls + Greets(|s.net.conns|, s.sdSocket);
    var status := s.MdfiEnvfrom();
    if s.sdSocket == -1 {
      return Unopened;
    }
    if status == Accept {
      MailEndedStops(base, s.net.conns, fd, first, ScriptLog(s.Helo(), rest));
      return Failed;
    }
    ghost var now, calls := s.net.conns, s.net.calls;
    outcome := RunRest(s, rest, if stop == 0 then |rest| else stop - 1);
    TalkedOn(greeted, calls, s.net.calls, fd, outcome);
    if outcome.Aborted? {
      GainedMore(base, now, s.net.conns, fd, s.Helo(), Script(m), stop);
    }
    MailEndedContinues(base, now, s.net.conns, fd, first, ScriptLog(s.Helo(), rest), outcome);
  }

  /** The remaining callbacks, one after another. */
  method RunRest(s: SessionData, script: seq<Callback>, stop: nat) returns (outcome: Outcome)
    requires s.Valid() && s.sdSocket != -1 && Proper(script)
    modifies s`sdSocket, s.net
    ensures s.Valid() && !outcome.Unopened?
    ensures Refusals(old(s.net.refused), s.net.refused, !outcome.Failed?)
    ensures !outcome.Failed? ==> outcome == if stop < |script| then Aborted else Completed
    ensures outcome.Aborted? ==>
              Gained(old(s.net.conns), s.net.conns, old(s.sdSocket), ScriptLog(s.Helo(), script[..stop]))
    ensures s.sdSocket == if outcome.Aborted? then -1 else old(s.sdSocket)
    ensures MailEnded(old(s.net.conns), s.net.conns, old(s.sdSocket), ScriptLog(s.Helo(), script), outcome)
    ensures MailTalked(old(s.net.calls), s.net.calls, old(s.sdSocket), outcome)
    decreases |script|
  {
    if script == [] {
      WroteNothing(s.net.conns, s.sdSocket);
      return Completed;
    }
    if stop == 0 {
      EndsInEom(s.Helo(), script);
      assert s.net.conns[s.sdSocket].log + [] == s.net.conns[s.sdSocket].log;
      var aborted := s.MdfiAbort();
      return Aborted;
    }
    ghost var first, rest := CallbackLog(s.Helo(), script[0]), ScriptLog(s.Helo(), script[1..]);
    var status := s.Dispatch(script[0]);
    if status == Accept {
      MailEndedStops(old(s.net.conns), s.net.conns, s.sdSocket, first, rest);
      return Failed;
    }
    ghost var now, calls := s.net.conns, s.net.calls;
    outcome := RunRest(s, script[1..], stop - 1);
    if outcome.Aborted? {
      GainedMore(old(s.net.conns), now, s.net.conns, old(s.sdSocket), s.Helo(), script, stop);
    }
    TalkedOn(old(s.net.calls), calls, s.net.calls, old(s.sdSocket), outcome);
    MailEndedContinues(old(s.net.conns), now, s.net.conns, old(s.sdSocket), first, rest, outcome);
  }

  lemma RestIsProper(m: Mail)
    ensures Proper(Rest(m))
  {
    PartsNoEnvfrom(m.rcpts, m.headers, m.chunks);
    var rest := Rest(m);
    assert Envfrom !in Rcpts(m.rcpts) + [Data];
    assert Envfrom !in Fields(m.headers) + [Eoh] + Bodies(m.chunks) + [Eom];
    assert Envfrom !in rest;
    forall k | 0 <= k < |rest| ensures !rest[k].Envfrom? {
      assert rest[k] in rest;
    }
  }

  lemma {:induction false} PartsNoEnvfrom(rcpts: seq<seq<byte>>, headers: seq<Header>, chunks: seq<seq<byte>>)
    ensures Envfrom !in Rcpts(rcpts) && Envfrom !in Fields(headers) && Envfrom !in Bodies(chunks)
    decreases |rcpts| + |headers| + |chunks|
  {
    if rcpts != [] {
      PartsNoEnvfrom(rcpts[1..], headers, chunks);
    } else if headers != [] {
      PartsNoEnvfrom(rcpts, headers[1..], chunks);
    } else if chunks != [] {
      PartsNoEnvfrom(rcpts, headers, chunks[1..]);
    }
  }

  // ---------------------------------------------------------------- one message, from its calls

  lemma ReplayBase(before: seq<Call>, socket: int)
    ensures Replay(before + Greets(|Replay(before)|, socket)) == Base(Replay(before), socket)
  {
    if socket == -1 {
      ReplayGreets(before);
    } else {
      assert before + [] == before;
    }
  }

  lemma ProgressOf(before: seq<Event>, gained: seq<Event>, full: seq<Event>)
    ensures Progress(before, before + gained, full, false) <==> gained < full
    ensures Progress(before, before + gained, full, true) <==> gained == full
  {
    if before + gained <= before + full {
      assert gained == (before + gained)[|before|..];
      assert (before + full)[|before|..|before + gained|] == full[..|gained|];
    }
    if gained <= full {
      assert full == gained + full[|gained|..];
      Associates(before, gained, full[|gained|..]);
    }
  }

  /** Whether calls on an open connection are those of a message shows in what they do. */
  lemma MailByItsCalls(
    base: seq<Call>, said: seq<Call>, fd: int, full: seq<Event>, outcome: Outcome)
    requires IsOpen(Replay(base), fd) && Talked([], said, fd)
    ensures MailEnded(Replay(base), Replay(base + (said + Shut(fd, outcome))), fd, full, outcome) <==>
            if outcome.Completed? then Events(said) == full else Events(said) < full
  {
    ReplayMail(base, said, fd, outcome);
    ProgressOf(Replay(base)[fd].log, Events(said), full);
  }

  lemma CallsRunMail(helo: seq<byte>, base: seq<Call>, calls: seq<Call>, fd: int, m: Mail, outcome: Outcome)
    requires IsOpen(Replay(base), fd) && MailCalls(helo, m, outcome, fd, calls)
    ensures MailEnded(Replay(base), Replay(base + calls), fd, MailLog(helo, m), outcome)
  {
    MailByItsCalls(base, Said(calls, outcome), fd, MailLog(helo, m), outcome);
  }

  lemma TalkedIsSaid(base: seq<Call>, after: seq<Call>, fd: int, outcome: Outcome)
    requires MailTalked(base, after, fd, outcome)
    ensures base <= after
    ensures var calls := after[|base|..]; var said := Said(calls, outcome);
            after == base + calls && calls == said + Shut(fd, outcome) && Talked([], said, fd)
  {
  }

  lemma MailMakesCalls(helo: seq<byte>, base: seq<Call>, after: seq<Call>, fd: int, m: Mail, outcome: Outcome)
    requires IsOpen(Replay(base), fd) && MailTalked(base, after, fd, outcome)
    requires MailEnded(Replay(base), Replay(after), fd, MailLog(helo, m), outcome)
    ensures base <= after && MailCalls(helo, m, outcome, fd, after[|base|..])
  {
    TalkedIsSaid(base, after, fd, outcome);
    MailByItsCalls(base, Said(after[|base|..], outcome), fd, MailLog(helo, m), outcome);
  }

  lemma NoneMakesCalls(helo: seq<byte>, before: seq<Call>, after: seq<Call>, m: Mail)
    requires NotOpened(before, after, Made(before))
    ensures before <= after && JobCalls(helo, m, Unopened, Made(before), -1, after[|before|..])
  {
  }

  /** Running a message makes the calls of a message, after the greeting of a new connection if there was none. */
  lemma JobMakesCalls(helo: seq<byte>, before: seq<Call>, after: seq<Call>, socket: int, m: Mail, outcome: Outcome)
    requires !outcome.Unopened? && (socket == -1 || IsOpen(Replay(before), socket))
    requires var fd := BaseSocket(Replay(before), socket);
             && MailTalked(before + Greets(|Replay(before)|, socket), after, fd, outcome)
             && MailEnded(Base(Replay(before), socket), Replay(after), fd, MailLog(helo, m), outcome)
    ensures before <= after && JobCalls(helo, m, outcome, Made(before), socket, after[|before|..])
  {
    var greets := Greets(|Replay(before)|, socket);
    MadeAreReplayed(before);
    ReplayBase(before, socket);
    MailMakesCalls(helo, before + greets, after, BaseSocket(Replay(before), socket), m, outcome);
    TwoCuts(before, greets, after);
  }

  /** And the other way round. */
  lemma CallsRunJob(helo: seq<byte>, before: seq<Call>, talk: seq<Call>, socket: int, m: Mail, outcome: Outcome)
    requires socket == -1 || IsOpen(Replay(before), socket)
    requires MailCalls(helo, m, outcome, BaseSocket(Replay(before), socket), talk)
    ensures var conns := Replay(before);
            MailEnded(Base(conns, socket), Replay(before + (Greets(|conns|, socket) + talk)),
                      BaseSocket(conns, socket), MailLog(helo, m), outcome)
  {
    var greets := Greets(|Replay(before)|, socket);
    ReplayBase(before, socket);
    CallsRunMail(helo, before + greets, talk, BaseSocket(Replay(before), socket), m, outcome);
    Associates(before, greets, talk);
  }

  // ---------------------------------------------------------------- a whole session

  datatype Job = Job(mail: Mail, stop: nat)

  /** The messages that were run on some connection, with their outcomes, in order. */
  function Ran(jobs: seq<Job>, outcomes: seq<Outcome>): seq<(Mail, Outcome)>
    requires |outcomes| <= |jobs|
    decreases |outcomes|
  {
    if outcomes == [] then []
    else
      var n := |outcomes| - 1;
      if outcomes[n].Unopened? then Ran(jobs, outcomes[..n])
      else Ran(jobs, outcomes[..n]) + [(jobs[n].mail, outcomes[n])]
  }

  /** If every message got a connection, all of them were run, in order, with their outcomes. */
  lemma {:induction false} RanAll(jobs: seq<Job>, outcomes: seq<Outcome>)
    requires |outcomes| <= |jobs| && forall k :: 0 <= k < |outcomes| ==> !outcomes[k].Unopened?
    ensures |Ran(jobs, outcomes)| == |outcomes|
    ensures forall k :: 0 <= k < |outcomes| ==> Ran(jobs, outcomes)[k] == (jobs[k].mail, outcomes[k])
    decreases |outcomes|
  {
    if outcomes != [] {
      RanAll(jobs, outcomes[..|outcomes| - 1]);
    }
  }

  function Carries(segs: seq<Segment>): seq<(Mail, Outcome)> {
    if segs == [] then []
    else
      var n := |segs| - 1;
      Carries(segs[..n]) + [(segs[n].mail, segs[n].outcome)]
  }

  /** What all connections carried, the older connections first. */
  function CarriesAll(history: seq<seq<Segment>>): seq<(Mail, Outcome)> {
    if history == [] then []
    else
      var n := |history| - 1;
      CarriesAll(history[..n]) + Carries(history[n])
  }

  lemma CarriesOneMore(history: seq<seq<Segment>>, seg: Segment)
    requires history != []
    ensures var n := |history| - 1;
            CarriesAll(history[n := history[n] + [seg]]) == CarriesAll(history) + [(seg.mail, seg.outcome)]
  {
    var n := |history| - 1;
    var grown := history[n := history[n] + [seg]];
    assert grown[..n] == history[..n];
    assert (history[n] + [seg])[..|history[n]|] == history[n];
    Associates(CarriesAll(history[..n]), Carries(history[n]), [(seg.mail, seg.outcome)]);
  }

  lemma CarriesSame(history: seq<seq<Segment>>)
    ensures CarriesAll(history + [[]]) == CarriesAll(history)
  {
    assert (history + [[]])[..|history|] == history;
  }

  lemma RanOneMore(jobs: seq<Job>, outcomes: seq<Outcome>, outcome: Outcome)
    requires |outcomes| < |jobs|
    ensures Ran(jobs, outcomes + [outcome]) ==
            if outcome.Unopened? then Ran(jobs, outcomes)
            else Ran(jobs, outcomes) + [(jobs[|outcomes|].mail, outcome)]
  {
    assert (outcomes + [outcome])[..|outcomes|] == outcomes;
  }

  /**
   The session's connections live well, its socket, if any, is the newest of them, and
   if there is none although the newest got a greeting, then because of an abort.
   */
  ghost predicate SessionOk(helo: seq<byte>, conns: seq<Connection>, history: seq<seq<Segment>>, socket: int) {
    && HistoryOk(helo, conns, history, socket)
    && if socket != -1 then socket == |conns| - 1
       else conns != [] && conns[|conns| - 1].log != [] ==> EndsAborted(history[|conns| - 1])
  }

  /** A new connection, with nothing carried yet. */
  lemma ConnectionAdded(helo: seq<byte>, conns: seq<Connection>, history: seq<seq<Segment>>, conn: Connection)
    requires SessionOk(helo, conns, history, -1) && LifeOk(helo, conn, [])
    ensures HistoryOk(helo, conns + [conn], history + [[]], if conn.open then |conns| else -1)
  {
    var conns', history' := conns + [conn], history + [[]];
    forall c | 0 <= c < |conns'| ensures LifeOk(helo, conns'[c], history'[c]) {
      if c < |conns| {
        assert conns'[c] == conns[c] && history'[c] == history[c];
      }
    }
    forall c | 0 <= c < |conns| && conns'[c].log != [] ensures EndsAborted(history'[c]) {
      assert conns'[c] == conns[c] && history'[c] == history[c];
    }
  }

  lemma UnopenedKeeps(
    helo: seq<byte>, before: seq<Connection>, after: seq<Connection>, history: seq<seq<Segment>>)
    requires SessionOk(helo, before, history, -1)
    requires after == before || after == before + [Connection([], false)]
    ensures SessionOk(helo, after, if |after| > |history| then history + [[]] else history, -1)
  {
    if after != before {
      ConnectionAdded(helo, before, history, Connection([], false));
    }
  }

  lemma BaseKeeps(helo: seq<byte>, before: seq<Connection>, socket: int, history: seq<seq<Segment>>)
    requires SessionOk(helo, before, history, socket)
    ensures var base := Base(before, socket); var fd := BaseSocket(before, socket);
            fd == |base| - 1 && HistoryOk(helo, base, if |base| > |history| then history + [[]] else history, fd)
  {
    assert [Reply] + Flatten([]) == [Reply];
    if socket == -1 {
      ConnectionAdded(helo, before, history, Connection([Reply], true));
    }
  }

  /** The last entry of the history, longer by one segment. */
  function Entered(history: seq<seq<Segment>>, seg: Segment): seq<seq<Segment>>
    requires history != []
  {
    history[|history| - 1 := history[|history| - 1] + [seg]]
  }

  lemma OpenedKeeps(
    helo: seq<byte>, before: seq<Connection>, after: seq<Connection>, socket: int,
    history: seq<seq<Segment>>, m: Mail, outcome: Outcome)
    requires SessionOk(helo, before, history, socket) && !outcome.Unopened?
    requires MailEnded(Base(before, socket), after, BaseSocket(before, socket), MailLog(helo, m), outcome)
    ensures var all := if |after| > |history| then history + [[]] else history;
            var base := Base(before, socket); var fd := BaseSocket(before, socket);
            && fd == |all| - 1 && 0 <= fd < |after| && |base[fd].log| <= |after[fd].log|
            && var seg := Segment(m, outcome, after[fd].log[|base[fd].log|..]);
            && SessionOk(helo, after, Entered(all, seg), if outcome.Aborted? then -1 else fd)
            && CarriesAll(Entered(all, seg)) == CarriesAll(history) + [(m, outcome)]
  {
    var all := if |after| > |history| then history + [[]] else history;
    var base, fd := Base(before, socket), BaseSocket(before, socket);
    BaseKeeps(helo, before, socket, history);
    GrowsHistory(helo, before, after, socket, all, m, outcome);
    CarriesSame(history);
    CarriesOneMore(all, Segment(m, outcome, after[fd].log[|base[fd].log|..]));
  }

  /** The calls of a message that was run, as the session's course has them. */
  lemma MailCourse(
    helo: seq<byte>, m: Mail, outcome: Outcome, before: seq<Call>, socket: int,
    after: seq<Call>, socket': int, past: Course)
    returns (course: Course)
    requires MailRun(MailLog(helo, m), outcome, Replay(before), before, socket, Replay(after), after, socket')
    requires socket == -1 || IsOpen(Replay(before), socket)
    requires Tells(helo, past, before, socket)
    ensures Tells(helo, course, after, socket')
    ensures course.Then? && course.before == past && course.mail == m && course.outcome == outcome
  {
    MadeAreReplayed(before);
    if outcome.Unopened? {
      NoneMakesCalls(helo, before, after, m);
    } else {
      JobMakesCalls(helo, before, after, socket, m, outcome);
    }
    var more := after[|before|..];
    assert before + more == after;
    TellsMore(helo, past, before, socket, m, outcome, more);
    course := Then(past, m, outcome, more);
  }

  /** And its entry in the history of the connection it was run on. */
  lemma MailHistory(
    helo: seq<byte>, m: Mail, outcome: Outcome, before: seq<Call>, socket: int,
    after: seq<Call>, socket': int, past: seq<seq<Segment>>)
    returns (history: seq<seq<Segment>>)
    requires MailRun(MailLog(helo, m), outcome, Replay(before), before, socket, Replay(after), after, socket')
    requires SessionOk(helo, Replay(before), past, socket)
    ensures SessionOk(helo, Replay(after), history, socket')
    ensures CarriesAll(history) == if outcome.Unopened? then CarriesAll(past) else CarriesAll(past) + [(m, outcome)]
  {
    var conns, conns' := Replay(before), Replay(after);
    var all := if |conns'| > |past| then past + [[]] else past;
    if outcome.Unopened? {
      CarriesSame(past);
      UnopenedKeeps(helo, conns, conns', past);
      history := all;
    } else {
      OpenedKeeps(helo, conns, conns', socket, past, m, outcome);
      var fd := BaseSocket(conns, socket);
      history := Entered(all, Segment(m, outcome, conns'[fd].log[|Base(conns, socket)[fd].log|..]));
    }
  }

  /** No connection carries anything but its greeting. */
  predicate NothingSaid(conns: seq<Connection>) {
    forall c :: 0 <= c < |conns| ==> conns[c].log == [] || conns[c].log == [Reply]
  }

  lemma StillNothing(conns: seq<Connection>, socket: int, after: seq<Connection>)
    requires NothingSaid(conns)
    requires || after == conns || after == conns + [Connection([], false)] || after == Base(conns, socket)
    ensures NothingSaid(after)
  {
  }

  /** One message, entered into the history of the connection it was run on, and into the session's course. */
  method RunJob(s: SessionData, job: Job, ghost before: seq<seq<Segment>>, ghost past: Course)
    returns (outcome: Outcome, ghost history: seq<seq<Segment>>, ghost course: Course)
    requires s.Valid() && SessionOk(s.Helo(), s.net.conns, before, s.sdSocket)
    requires Tells(s.Helo(), past, s.net.calls, s.sdSocket)
    modifies s`sdSocket, s.net
    ensures s.Valid() && SessionOk(s.Helo(), s.net.conns, history, s.sdSocket)
    ensures Tells(s.Helo(), course, s.net.calls, s.sdSocket)
    ensures course.Then? && course.before == past && course.mail == job.mail && course.outcome == outcome
    ensures OutcomeCaused(outcome, job.mail, job.stop, s.Nameless(), old(s.net.refused), s.net.refused)
    ensures s.Nameless() && NothingSaid(old(s.net.conns)) ==> NothingSaid(s.net.conns)
    ensures CarriesAll(history) ==
            if outcome.Unopened? then CarriesAll(before) else CarriesAll(before) + [(job.mail, outcome)]
  {
    ghost var conns, calls, socket := s.net.conns, s.net.calls, s.sdSocket;
    outcome := RunMail(s, job.mail, job.stop);
    if s.Nameless() && NothingSaid(conns) {
      StillNothing(conns, socket, s.net.conns);
    }
    course := MailCourse(s.Helo(), job.mail, outcome, calls, socket, s.net.calls, s.sdSocket, past);
    history := MailHistory(s.Helo(), job.mail, outcome, calls, socket, s.net.calls, s.sdSocket, before);
  }

  /** What comes of a message if nothing is refused. */
  function Planned(job: Job): Outcome {
    if 0 < job.stop < |Script(job.mail)| then Aborted else Completed
  }

  /**
   Without a name for HELO, every message fails or gets no connection; with one, and if the
   kernel refused nothing, every message is aborted where it was to be, or else completed.
   */
  predicate AllCaused(jobs: seq<Job>, outcomes: seq<Outcome>, nameless: bool, before: nat, after: nat) {
    && before <= after && |outcomes| <= |jobs|
    && forall k :: 0 <= k < |outcomes| ==>
         if nameless then outcomes[k].Failed? || outcomes[k].Unopened?
         else after == before ==> outcomes[k] == Planned(jobs[k])
  }

  /** The messages so far, as the outcomes, the history and the course tell of them. */
  ghost predicate RunSoFar(
    jobs: seq<Job>, outcomes: seq<Outcome>, history: seq<seq<Segment>>, course: Course,
    nameless: bool, before: nat, after: nat)
  {
    && AllCaused(jobs, outcomes, nameless, before, after)
    && CarriesAll(history) == RanIn(course) == Ran(jobs, outcomes)
  }

  lemma OneMoreRun(
    jobs: seq<Job>, outcomes: seq<Outcome>, outcome: Outcome, past: seq<seq<Segment>>, history: seq<seq<Segment>>,
    before: Course, course: Course, nameless: bool, first: nat, refused: nat, refused': nat)
    requires |outcomes| < |jobs| && RunSoFar(jobs, outcomes, past, before, nameless, first, refused)
    requires var job := jobs[|outcomes|];
             && OutcomeCaused(outcome, job.mail, job.stop, nameless, refused, refused')
             && course.Then? && course.before == before && course.mail == job.mail && course.outcome == outcome
             && CarriesAll(history) ==
                if outcome.Unopened? then CarriesAll(past) else CarriesAll(past) + [(job.mail, outcome)]
    ensures RunSoFar(jobs, outcomes + [outcome], history, course, nameless, first, refused')
  {
    CausedMore(jobs, outcomes, outcome, nameless, first, refused, refused');
    RanMore(jobs, outcomes, outcome, course);
  }

  lemma RanMore(jobs: seq<Job>, outcomes: seq<Outcome>, outcome: Outcome, course: Course)
    requires |outcomes| < |jobs| && course.Then? && RanIn(course.before) == Ran(jobs, outcomes)
    requires course.mail == jobs[|outcomes|].mail && course.outcome == outcome
    ensures RanIn(course) == Ran(jobs, outcomes + [outcome])
    ensures RanIn(course) ==
            if outcome.Unopened? then RanIn(course.before) else RanIn(course.before) + [(course.mail, outcome)]
  {
    RanOneMore(jobs, outcomes, outcome);
    assert RanIn(course.before) + [] == RanIn(course.before);
  }

  lemma CausedMore(
    jobs: seq<Job>, outcomes: seq<Outcome>, outcome: Outcome, nameless: bool, first: nat, before: nat, after: nat)
    requires |outcomes| < |jobs| && AllCaused(jobs, outcomes, nameless, first, before)
    requires OutcomeCaused(outcome, jobs[|outcomes|].mail, jobs[|outcomes|].stop, nameless, before, after)
    ensures AllCaused(jobs, outcomes + [outcome], nameless, first, after)
  {
  }

  /** Any sequence of messages, each completed, failed or aborted anywhere. */
  method RunJobs(s: SessionData, jobs: seq<Job>)
    returns (outcomes: seq<Outcome>, ghost history: seq<seq<Segment>>, ghost course: Course)
    requires s.Valid() && s.net.conns == [] && s.net.calls == [] && s.sdSocket == -1
    modifies s`sdSocket, s.net
    ensures s.Valid() && SessionOk(s.Helo(), s.net.conns, history, s.sdSocket)
    ensures |outcomes| == |jobs| && CarriesAll(history) == RanIn(course) == Ran(jobs, outcomes)
    ensures Tells(s.Helo(), course, s.net.calls, s.sdSocket)
    ensures AllCaused(jobs, outcomes, s.Nameless(), old(s.net.refused), s.net.refused)
    ensures s.Nameless() ==> NothingSaid(s.net.conns)
  {
    outcomes, history, course := [], [], Begun;
    var k := 0;
    while k < |jobs|
      invariant 0 <= k <= |jobs| && s.Valid()
      invariant SessionOk(s.Helo(), s.net.conns, history, s.sdSocket)
      invariant Tells(s.Helo(), course, s.net.calls, s.sdSocket)
      invariant |outcomes| == k
      invariant RunSoFar(jobs, outcomes, history, course, s.Nameless(), old(s.net.refused), s.net.refused)
      invariant s.Nameless() ==> NothingSaid(s.net.conns)
    {
      var outcome;
      ghost var refused, past, before := s.net.refused, history, course;
      outcome, history, course := RunJob(s, jobs[k], history, course);
      OneMoreRun(jobs, outcomes, outcome, past, history, before, course, s.Nameless(),
                 old(s.net.refused), refused, s.net.refused);
      outcomes := outcomes + [outcome];
      k := k + 1;
    }
  }

  /** The session's connections live well, all closed, and its calls are lawful, with this HELO name. */
  ghost predicate Spoke(helo: seq<byte>, conns: seq<Connection>, history: seq<seq<Segment>>, course: Course) {
    HistoryOk(helo, conns, history, -1) && Lawful(helo, course)
  }

  /** A whole session: connect, any messages, close. */
  method RunSession(net: Net, store: Store, hostname: Option<seq<byte>>, jobs: seq<Job>)
    returns (outcomes: seq<Outcome>, ghost history: seq<seq<Segment>>, ghost course: Course)
    requires store.Valid() && net.Valid() && net.conns == [] && net.calls == []
    modifies net, store`heap
    ensures var data := old(store.heap)[store.cur].data;
            && (data.heloDomain != [] ==> Spoke(data.heloDomain, net.conns, history, course))
            && (data.heloDomain == [] && hostname.Some? ==> Spoke(hostname.value, net.conns, history, course))
            && (data.heloDomain == [] && hostname.None? ==>
                  Spoke([], net.conns, history, course) && NothingSaid(net.conns))
            && AllCaused(jobs, outcomes, data.heloDomain == [] && hostname.None?, old(net.refused), net.refused)
    ensures |outcomes| == |jobs| && CarriesAll(history) == RanIn(course) == Ran(jobs, outcomes)
    ensures store.Valid() && store.heap == old(store.heap)
    ensures net.Valid() && net.calls == SessionCalls(course)
  {
    var session, status := MdfiConnect(net, store, hostname, true);
    var s: SessionData := session;
    ghost var helo := s.Helo();
    outcomes, history, course := RunJobs(s, jobs);
    ghost var last := net.conns;
    status := s.MdfiClose();
    EndsHistory(helo, last, history, s.sdSocket);
    DropUndoesTake(old(store.heap), store.cur);
  }

  /** The new segment continues the connection's life. */
  lemma GrowsHistory(
    helo: seq<byte>, before: seq<Connection>, after: seq<Connection>, socket: int,
    history: seq<seq<Segment>>, m: Mail, outcome: Outcome)
    requires var base := Base(before, socket); var fd := BaseSocket(before, socket);
             && |history| == |base| == fd + 1
             && HistoryOk(helo, base, history, fd)
             && !outcome.Unopened?
             && MailEnded(base, after, fd, MailLog(helo, m), outcome)
    ensures var base := Base(before, socket); var fd := BaseSocket(before, socket);
            var seg := Segment(m, outcome, after[fd].log[|base[fd].log|..]);
            SessionOk(helo, after, Entered(history, seg), if outcome.Aborted? then -1 else fd)
  {
    var base := Base(before, socket);
    var fd := BaseSocket(before, socket);
    var seg := Segment(m, outcome, after[fd].log[|base[fd].log|..]);
    LifeGrows(helo, base[fd], after[fd], history[fd], seg);
    assert outcome.Aborted? ==> EndsAborted(history[fd] + [seg]);
  }

  lemma LifeGrows(helo: seq<byte>, conn: Connection, conn': Connection, segs: seq<Segment>, seg: Segment)
    requires LifeOk(helo, conn, segs) && conn.open && !seg.outcome.Unopened?
    requires Progress(conn.log, conn'.log, MailLog(helo, seg.mail), seg.outcome.Completed?)
    requires seg.log == conn'.log[|conn.log|..] && conn'.open == !seg.outcome.Aborted?
    ensures LifeOk(helo, conn', segs + [seg])
  {
    var all := segs + [seg];
    assert all[..|all| - 1] == segs && Flatten(all) == Flatten(segs) + seg.log;
    assert conn'.log == conn.log + seg.log;
    Associates([Reply], Flatten(segs), seg.log);
    if !seg.outcome.Completed? {
      assert seg.log == MailLog(helo, seg.mail)[..|seg.log|];
    }
  }

  lemma EndsHistory(helo: seq<byte>, conns: seq<Connection>, history: seq<seq<Segment>>, socket: int)
    requires HistoryOk(helo, conns, history, socket)
    ensures HistoryOk(helo, Closed(conns, socket), history, -1)
  {
  }

  // ---------------------------------------------------------------- a whole session, from its calls

  /** The connections of a session follow from its calls alone: they live as those that RunSession leaves. */
  lemma {:induction false} CourseLives(helo: seq<byte>, course: Course) returns (history: seq<seq<Segment>>)
    requires Lawful(helo, course)
    ensures SessionOk(helo, Replay(AllCalls(course)), history, OpenFd(course))
    ensures CarriesAll(history) == RanIn(course)
  {
    match course
    case Begun =>
      history := [];
    case Then(before, mail, outcome, calls) =>
      history := CourseLives(helo, before);
      history := JobLives(helo, mail, outcome, AllCalls(before), calls, OpenFd(before), history);
  }

  lemma JobLives(
    helo: seq<byte>, m: Mail, outcome: Outcome, before: seq<Call>, calls: seq<Call>, fd: int,
    past: seq<seq<Segment>>)
    returns (history: seq<seq<Segment>>)
    requires SessionOk(helo, Replay(before), past, fd)
    requires JobCalls(helo, m, outcome, Made(before), fd, calls)
    ensures SessionOk(helo, Replay(before + calls), history, NextFd(Made(before), fd, outcome))
    ensures CarriesAll(history) == if outcome.Unopened? then CarriesAll(past) else CarriesAll(past) + [(m, outcome)]
  {
    var conns, after := Replay(before), Replay(before + calls);
    MadeAreReplayed(before);
    if outcome.Unopened? {
      ReplayNotOpened(before, calls);
      UnopenedKeeps(helo, conns, after, past);
      CarriesSame(past);
      history := if |after| > |past| then past + [[]] else past;
    } else {
      var greets := Greets(|conns|, fd);
      var talk := calls[|greets|..];
      assert calls == greets + talk;
      CallsRunJob(helo, before, talk, fd, m, outcome);
      OpenedKeeps(helo, conns, after, fd, past, m, outcome);
      var all := if |after| > |past| then past + [[]] else past;
      var socket := BaseSocket(conns, fd);
      history := Entered(all, Segment(m, outcome, after[socket].log[|Base(conns, fd)[socket].log|..]));
    }
  }

  /** So a session whose calls are lawful has such a history, whoever makes the calls. */
  lemma SessionLives(helo: seq<byte>, course: Course) returns (history: seq<seq<Segment>>)
    requires Lawful(helo, course)
    ensures HistoryOk(helo, Replay(SessionCalls(course)), history, -1) && CarriesAll(history) == RanIn(course)
  {
    history := CourseLives(helo, course);
    EndsHistory(helo, Replay(AllCalls(course)), history, OpenFd(course));
    ReplayClosing(AllCalls(course), OpenFd(course));
  }

  // ---------------------------------------------------------------- what a life amounts to

  function MailsOf(segs: seq<Segment>): seq<Mail> {
    if segs == [] then [] else [segs[0].mail] + MailsOf(segs[1..])
  }

  lemma {:induction false} FlattenCompleted(helo: seq<byte>, segs: seq<Segment>)
    requires forall k :: 0 <= k < |segs| ==> SegmentOk(helo, segs[k]) && segs[k].outcome.Completed?
    ensures Flatten(segs) == MailLogs(helo, MailsOf(segs))
  {
    if segs != [] {
      var n := |segs| - 1;
      FlattenCompleted(helo, segs[..n]);
      MailsOfSnoc(segs);
      MailLogsSnoc(helo, MailsOf(segs[..n]), segs[n].mail);
    }
  }

  lemma {:induction false} MailsOfSnoc(segs: seq<Segment>)
    requires segs != []
    ensures MailsOf(segs) == MailsOf(segs[..|segs| - 1]) + [segs[|segs| - 1].mail]
  {
    if |segs| > 1 {
      MailsOfSnoc(segs[1..]);
      assert segs[1..][..|segs| - 2] == segs[..|segs| - 1][1..];
    }
  }

  lemma {:induction false} MailLogsSnoc(helo: seq<byte>, mails: seq<Mail>, m: Mail)
    ensures MailLogs(helo, mails + [m]) == MailLogs(helo, mails) + MailLog(helo, m)
  {
    if mails == [] {
      assert mails + [m] == [m];
      assert MailLogs(helo, [m]) == MailLog(helo, m) + MailLogs(helo, []);
    } else {
      assert (mails + [m])[1..] == mails[1..] + [m];
      MailLogsSnoc(helo, mails[1..], m);
    }
  }

  /**
   Connection reuse: if no message of a session but its last on this connection
   was left unfinished without an abort, the connection carried complete
   conversations, one after another, followed by at most one prefix of another.
   */
  lemma ReuseIsClean(helo: seq<byte>, conn: Connection, segs: seq<Segment>)
    requires LifeOk(helo, conn, segs) && segs != []
    requires forall k :: 0 <= k < |segs| - 1 ==> !segs[k].outcome.Failed?
    ensures var n := |segs| - 1;
            && conn.log == [Reply] + MailLogs(helo, MailsOf(segs[..n])) + segs[n].log
            && segs[n].log <= MailLog(helo, segs[n].mail)
            && (segs[n].outcome.Completed? ==> conn.log == [Reply] + MailLogs(helo, MailsOf(segs)))
  {
    var n := |segs| - 1;
    forall k | 0 <= k < n ensures SegmentOk(helo, segs[..n][k]) && segs[..n][k].outcome.Completed? {
      assert SegmentOk(helo, segs[k]);
    }
    FlattenCompleted(helo, segs[..n]);
    assert SegmentOk(helo, segs[n]);
    if segs[n].outcome.Completed? {
      FlattenCompleted(helo, segs);
    }
  }

  /** Where all messages were completed, the copy server gets every one of them exactly when each can be got. */
  lemma {:induction false} CompletedAreHeard(helo: seq<byte>, conn: Connection, segs: seq<Segment>)
    requires LifeOk(helo, conn, segs) && segs != []
    requires forall k :: 0 <= k < |segs| ==> segs[k].outcome.Completed?
    ensures Listen(START, conn.log).got == Copies(helo, MailsOf(segs)) <==>
            OneLine(helo) && forall k :: 0 <= k < |segs| ==> Transparent(segs[k].mail)
    ensures Listen(START, conn.log).got == Copies(helo, MailsOf(segs)) ==> Listen(START, conn.log).phase == Ready([])
  {
    FlattenCompleted(helo, segs);
    MailsOfIndex(segs);
    ConnectionHeard(helo, MailsOf(segs));
    if forall k :: 0 <= k < |segs| ==> OneLine(helo) && Transparent(MailsOf(segs)[k]) {
      assert OneLine(helo) && Transparent(MailsOf(segs)[0]);
      forall k | 0 <= k < |segs| ensures Transparent(segs[k].mail) {
        assert Transparent(MailsOf(segs)[k]);
      }
    }
  }

  lemma {:induction false} MailsOfIndex(segs: seq<Segment>)
    ensures |MailsOf(segs)| == |segs|
    ensures forall k :: 0 <= k < |segs| ==> MailsOf(segs)[k] == segs[k].mail
  {
    if segs != [] {
      MailsOfIndex(segs[1..]);
    }
  }
}
