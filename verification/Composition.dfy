/**
 Why a session may be studied alone: in every interleaving, the connections of a
 session are those that its own steps, taken one after another, leave on a
 network of its own, where no number is ever used twice.
 */
module Composition {
  import opened Bytes
  import opened Wire
  import opened Daemon
  import opened DaemonInvariant
  import opened DaemonEffects
  import opened Network
  import Program
  import Libmilter

  // ---------------------------------------------------------------- a session's own connections

  function AsConnection(conn: Conn): Connection {
    Connection(conn.log, conn.closes == 0)
  }

  /** The connections of session `i` among the first `n`. */
  function Own(conns: seq<Conn>, i: nat, n: nat): seq<Connection>
    requires n <= |conns|
  {
    if n == 0 then []
    else if conns[n - 1].owner == i then Own(conns, i, n - 1) + [AsConnection(conns[n - 1])]
    else Own(conns, i, n - 1)
  }

  /** All connections session `i` ever opened, in order. */
  function OwnConns(s: State, i: nat): seq<Connection> {
    Own(s.conns, i, |s.conns|)
  }

  lemma {:induction false} OwnSame(conns: seq<Conn>, conns': seq<Conn>, i: nat, n: nat)
    requires n <= |conns| && n <= |conns'|
    requires forall c :: 0 <= c < n ==> conns'[c].owner == conns[c].owner
    requires forall c :: 0 <= c < n && conns[c].owner == i ==> conns'[c] == conns[c]
    ensures Own(conns', i, n) == Own(conns, i, n)
  {
    if n > 0 {
      OwnSame(conns, conns', i, n - 1);
    }
  }

  lemma {:induction false} OwnNoMore(conns: seq<Conn>, i: nat, n: nat, n': nat)
    requires n <= n' <= |conns|
    requires forall c :: n <= c < n' ==> conns[c].owner != i
    ensures Own(conns, i, n') == Own(conns, i, n)
    decreases n'
  {
    if n < n' {
      OwnNoMore(conns, i, n, n' - 1);
    }
  }

  /** Connection `c` of all has, among the session's own, the number of own ones before it. */
  lemma {:induction false} OwnAt(conns: seq<Conn>, i: nat, c: nat, n: nat)
    requires c < n <= |conns| && conns[c].owner == i
    ensures |Own(conns, i, c)| < |Own(conns, i, n)|
    ensures Own(conns, i, n)[|Own(conns, i, c)|] == AsConnection(conns[c])
    decreases n
  {
    if c < n - 1 {
      OwnAt(conns, i, c, n - 1);
    }
  }

  lemma {:induction false} OwnUpdate(conns: seq<Conn>, i: nat, c: nat, conn: Conn, n: nat)
    requires c < n <= |conns| && conns[c].owner == i == conn.owner
    requires |Own(conns, i, c)| < |Own(conns, i, n)|
    ensures Own(conns[c := conn], i, n) == Own(conns, i, n)[|Own(conns, i, c)| := AsConnection(conn)]
    decreases n
  {
    if c == n - 1 {
      OwnSame(conns, conns[c := conn], i, c);
    } else {
      OwnAt(conns, i, c, n - 1);
      OwnUpdate(conns, i, c, conn, n - 1);
    }
  }

  // ---------------------------------------------------------------- the session by itself

  /** What a session did on a network of its own, and the number of its open connection there, or -1. */
  datatype View = View(calls: seq<Call>, fd: int)

  const NOTHING := View([], -1)

  /** The calls of a session's step. */
  function CallsOf(v: View, act: SessionAct): seq<Call> {
    match act
    case Socket(_) => [Opens]
    case Established => [Adds(v.fd, [Reply])]
    case Write(bytes) => [Adds(v.fd, Say(bytes))]
    case Receive => [Adds(v.fd, [Reply])]
    case ConnectFailed => [Shuts(v.fd)]
    case AbortClose => [Shuts(v.fd)]
    case CloseSocket => if v.fd == -1 then [] else [Shuts(v.fd)]
    case _ => []
  }

  function Moves(v: View, act: SessionAct): View {
    View(v.calls + CallsOf(v, act),
         if act.Socket? then |Replay(v.calls)|
         else if act.ConnectFailed? || act.AbortClose? || act.CloseSocket? then -1
         else v.fd)
  }

  /** The session's own steps in a run, one after another. */
  function Alone(v: View, i: nat, run: seq<Label>): View
    decreases |run|
  {
    if run == [] then v
    else Alone(if run[0].Act? && run[0].i == i then Moves(v, run[0].act) else v, i, run[1..])
  }

  /** The number, among the session's own connections, of the one that `fd` leads to, or -1. */
  function Number(table: map<int, nat>, conns: seq<Conn>, i: nat, fd: int): int {
    if fd in table && table[fd] <= |conns| then |Own(conns, i, table[fd])| else -1
  }

  function FdOf(sessions: seq<Session>, i: nat): int {
    if i < |sessions| then OwnedFd(sessions[i]) else -1
  }

  /** The session's connections, and the one it has open, are what the view says. */
  ghost predicate Matches(s: State, i: nat, v: View) {
    && OwnConns(s, i) == Replay(v.calls)
    && Number(s.table, s.conns, i, FdOf(s.sessions, i)) == v.fd
  }

  // ---------------------------------------------------------------- steps of others

  /** Connections keep their owners, and only session `i` got new ones, if anyone. */
  ghost predicate OwnersKept(conns: seq<Conn>, conns': seq<Conn>, i: int) {
    && |conns| <= |conns'|
    && (forall c :: 0 <= c < |conns| ==> conns'[c].owner == conns[c].owner)
    && (forall c :: |conns| <= c < |conns'| ==> conns'[c].owner == i)
  }

  lemma OnFdOwners(s: State, i: nat, fd: int, events: seq<Event>)
    ensures OwnersKept(s.conns, OnFd(s, i, fd, events).conns, i)
  {
  }

  lemma CloseFdOwners(s: State, i: nat, fd: int)
    ensures OwnersKept(s.conns, CloseFd(s, i, fd).conns, i)
  {
  }

  lemma ActOwners(s: State, i: nat, act: SessionAct)
    requires CanAct(s, i, act)
    ensures OwnersKept(s.conns, DoAct(s, i, act).conns, i)
  {
    var me := s.sessions[i];
    var moved := s.(sessions := s.sessions[i := Next(s, i, act)]);
    match act
    case Established => OnFdOwners(moved, i, me.newSocket, [Reply]);
    case Write(bytes) => OnFdOwners(moved, i, me.socket, Say(bytes));
    case Receive => OnFdOwners(moved, i, me.socket, [Reply]);
    case ConnectFailed => CloseFdOwners(moved, i, me.newSocket);
    case AbortClose => CloseFdOwners(moved, i, me.socket);
    case CloseSocket => CloseFdOwners(moved, i, me.socket);
    case _ =>
  }

  lemma StepOwners(s: State, l: Label)
    requires Enabled(s, l)
    ensures OwnersKept(s.conns, Apply(s, l).conns, if l.Act? then l.i else -1)
  {
    match l
    case Act(i, act) => ActOwners(s, i, act);
    case Hup(act) => HupEffect(s, act);
    case _ =>
  }

  lemma OwnKept(conns: seq<Conn>, conns': seq<Conn>, i: nat, j: int)
    requires OwnersKept(conns, conns', j) && i != j
    requires forall c :: 0 <= c < |conns| && conns[c].owner == i ==> conns'[c] == conns[c]
    ensures Own(conns', i, |conns'|) == Own(conns, i, |conns|)
    ensures forall c :: 0 <= c <= |conns| ==> Own(conns', i, c) == Own(conns, i, c)
  {
    forall c | 0 <= c <= |conns| ensures Own(conns', i, c) == Own(conns, i, c) {
      OwnSame(conns, conns', i, c);
    }
    OwnNoMore(conns', i, |conns|, |conns'|);
  }

  /** A descriptor that its session owns before and after leads to the same connection. */
  lemma NumberKept(
    table: map<int, nat>, conns: seq<Conn>, sessions: seq<Session>,
    table': map<int, nat>, conns': seq<Conn>, sessions': seq<Session>, i: nat, j: int)
    requires SocketInv(table, conns, sessions) && SocketInv(table', conns', sessions')
    requires i < |sessions| && i < |sessions'| && sessions'[i] == sessions[i]
    requires OwnersKept(conns, conns', j) && i != j
    requires forall c :: 0 <= c < |conns| && conns[c].owner == i ==> conns'[c] == conns[c]
    ensures Number(table', conns', i, OwnedFd(sessions[i])) == Number(table, conns, i, OwnedFd(sessions[i]))
  {
    var fd := OwnedFd(sessions[i]);
    if fd != -1 {
      var c := table[fd];
      assert conns'[c] == conns[c];
      assert table'[fd] == c;
      OwnSame(conns, conns', i, c);
    }
  }

  /** Nobody owns anything before being a session. */
  lemma NotYet(s: State, i: nat)
    requires Inv(s) && (i < |s.sessions| ==> s.sessions[i].pc.Connect?)
    requires i < |s.sessions| ==> forall c :: 0 <= c < |s.conns| ==> s.conns[c].owner != i
    ensures OwnConns(s, i) == [] && Number(s.table, s.conns, i, FdOf(s.sessions, i)) == -1
  {
    OwnNoMore(s.conns, i, 0, |s.conns|);
  }

  lemma OnlySpawnAdds(s: State, l: Label, i: nat)
    requires Enabled(s, l) && |s.sessions| <= i < |Apply(s, l).sessions|
    ensures Apply(s, l).conns == s.conns && Apply(s, l).sessions[i].pc.Connect?
  {
    match l
    case Act(j, act) => ActEffect(s, j, act);
    case Hup(act) => HupEffect(s, act);
    case _ =>
  }

  lemma StrangersKeepView(s: State, l: Label, i: nat, v: View)
    requires Inv(s) && Enabled(s, l) && Matches(s, i, v) && |s.sessions| <= i
    ensures Matches(Apply(s, l), i, v)
  {
    var s' := Apply(s, l);
    StepKeeps(s, l);
    NotYet(s, i);
    if i < |s'.sessions| {
      OnlySpawnAdds(s, l, i);
    }
    NotYet(s', i);
  }

  lemma OthersKeepView(s: State, l: Label, i: nat, v: View)
    requires Inv(s) && Enabled(s, l) && Matches(s, i, v) && i < |s.sessions| && (l.Act? ==> l.i != i)
    ensures Matches(Apply(s, l), i, v)
  {
    var s' := Apply(s, l);
    var j := if l.Act? then l.i else -1;
    StepKeeps(s, l);
    StepOwners(s, l);
    OthersLeaveConns(s, l, i);
    OwnKept(s.conns, s'.conns, i, j);
    NumberKept(s.table, s.conns, s.sessions, s'.table, s'.conns, s'.sessions, i, j);
  }

  // ---------------------------------------------------------------- the session's own steps

  lemma SaidMatches(conns: seq<Conn>, i: nat, c: nat, events: seq<Event>, calls: seq<Call>)
    requires c < |conns| && conns[c].owner == i && conns[c].closes == 0
    requires Own(conns, i, |conns|) == Replay(calls)
    ensures var conns' := conns[c := conns[c].(log := conns[c].log + events)];
            && Own(conns', i, c) == Own(conns, i, c)
            && Own(conns', i, |conns'|) == Replay(calls + [Adds(|Own(conns, i, c)|, events)])
  {
    var conn := conns[c].(log := conns[c].log + events);
    OwnAt(conns, i, c, |conns|);
    OwnUpdate(conns, i, c, conn, |conns|);
    OwnSame(conns, conns[c := conn], i, c);
    ReplayOneMore(calls, Adds(|Own(conns, i, c)|, events));
  }

  lemma ShutMatches(conns: seq<Conn>, i: nat, c: nat, calls: seq<Call>)
    requires c < |conns| && conns[c].owner == i && conns[c].closes == 0
    requires Own(conns, i, |conns|) == Replay(calls)
    ensures var conns' := conns[c := conns[c].(closes := conns[c].closes + 1)];
            Own(conns', i, |conns'|) == Replay(calls + [Shuts(|Own(conns, i, c)|)])
  {
    var conn := conns[c].(closes := conns[c].closes + 1);
    OwnAt(conns, i, c, |conns|);
    OwnUpdate(conns, i, c, conn, |conns|);
    ReplayOneMore(calls, Shuts(|Own(conns, i, c)|));
  }

  /** A call on a number that is not open does nothing. */
  lemma NothingOpen(calls: seq<Call>, events: seq<Event>)
    ensures Replay(calls + [Adds(-1, events)]) == Replay(calls) == Replay(calls + [Shuts(-1)])
  {
    ReplayOneMore(calls, Adds(-1, events));
    ReplayOneMore(calls, Shuts(-1));
  }

  /** Events on the descriptor a session owns, if it owns one. */
  lemma TalkMatches(s: State, i: nat, fd: int, events: seq<Event>, v: View)
    requires SocketInv(s.table, s.conns, s.sessions) && i < |s.sessions| && Matches(s, i, v)
    requires fd == OwnedFd(s.sessions[i])
    ensures var s' := OnFd(s, i, fd, events);
            && OwnConns(s', i) == Replay(v.calls + [Adds(v.fd, events)])
            && Number(s'.table, s'.conns, i, fd) == v.fd
  {
    if fd == -1 {
      NothingOpen(v.calls, events);
    } else {
      SaidMatches(s.conns, i, s.table[fd], events, v.calls);
    }
  }

  lemma CloseMatches(s: State, i: nat, fd: int, v: View)
    requires SocketInv(s.table, s.conns, s.sessions) && i < |s.sessions| && Matches(s, i, v)
    requires fd == OwnedFd(s.sessions[i])
    ensures OwnConns(CloseFd(s, i, fd), i) == Replay(v.calls + [Shuts(v.fd)])
    ensures fd == -1 ==> v.fd == -1 && OwnConns(CloseFd(s, i, fd), i) == Replay(v.calls)
    ensures -1 !in CloseFd(s, i, fd).table
  {
    if fd == -1 {
      NothingOpen(v.calls, []);
    } else {
      ShutMatches(s.conns, i, s.table[fd], v.calls);
    }
  }

  lemma OpenMatches(s: State, i: nat, fd: int, v: View)
    requires OwnConns(s, i) == Replay(v.calls)
    ensures var conns' := s.conns + [Conn(i, fd, [], 0)];
            && Own(conns', i, |conns'|) == Replay(v.calls + [Opens])
            && Number(s.table[fd := |s.conns|], conns', i, fd) == |Replay(v.calls)|
  {
    OwnSame(s.conns, s.conns + [Conn(i, fd, [], 0)], i, |s.conns|);
    ReplayOneMore(v.calls, Opens);
  }

  predicate OnNetwork(act: SessionAct) {
    act.Socket? || act.Established? || act.Write? || act.Receive?
    || act.ConnectFailed? || act.AbortClose? || act.CloseSocket?
  }

  lemma QuietIsQuiet(s: State, i: nat, act: SessionAct)
    requires CanAct(s, i, act) && !OnNetwork(act)
    requires Connecting(s.sessions[i].pc) ==> s.sessions[i].socket == -1
    ensures var s' := DoAct(s, i, act);
            && s'.conns == s.conns && s'.table == s.table
            && i < |s'.sessions| && OwnedFd(s'.sessions[i]) == OwnedFd(s.sessions[i])
  {
  }

  lemma OwnQuietStep(s: State, i: nat, act: SessionAct, v: View)
    requires Inv(s) && CanAct(s, i, act) && Matches(s, i, v) && !OnNetwork(act)
    ensures Matches(DoAct(s, i, act), i, Moves(v, act))
  {
    QuietIsQuiet(s, i, act);
    assert v.calls + [] == v.calls;
  }

  function Told(act: SessionAct): seq<Event> {
    if act.Write? then Say(act.bytes) else [Reply]
  }

  lemma TalkIsOnFd(s: State, i: nat, act: SessionAct)
    requires CanAct(s, i, act) && (act.Established? || act.Write? || act.Receive?)
    ensures var s' := DoAct(s, i, act); var t := OnFd(s, i, OwnedFd(s.sessions[i]), Told(act));
            && s'.conns == t.conns && s'.table == t.table
            && i < |s'.sessions| && OwnedFd(s'.sessions[i]) == OwnedFd(s.sessions[i])
  {
  }

  lemma CloseIsCloseFd(s: State, i: nat, act: SessionAct)
    requires CanAct(s, i, act) && (act.ConnectFailed? || act.AbortClose? || act.CloseSocket?)
    ensures var s' := DoAct(s, i, act); var t := CloseFd(s, i, OwnedFd(s.sessions[i]));
            && s'.conns == t.conns && s'.table == t.table
            && i < |s'.sessions| && OwnedFd(s'.sessions[i]) == -1
  {
    var fd := OwnedFd(s.sessions[i]);
    var moved := s.(sessions := s.sessions[i := Next(s, i, act)]);
    assert DoAct(s, i, act) == CloseFd(moved, i, fd);
    CloseFdAnySessions(s, moved.sessions, i, fd);
  }

  lemma CloseFdAnySessions(s: State, sessions: seq<Session>, i: nat, fd: int)
    ensures var t := CloseFd(s.(sessions := sessions), i, fd);
            t.conns == CloseFd(s, i, fd).conns && t.table == CloseFd(s, i, fd).table && t.sessions == sessions
  {
  }

  /** What matches in one state matches in any other with the same connections and descriptors. */
  lemma MatchesThrough(s': State, t: State, i: nat, fd: int, v: View)
    requires s'.conns == t.conns && s'.table == t.table
    requires i < |s'.sessions| && OwnedFd(s'.sessions[i]) == fd
    requires OwnConns(t, i) == Replay(v.calls) && Number(t.table, t.conns, i, fd) == v.fd
    ensures Matches(s', i, v)
  {
  }

  lemma TalkMoves(v: View, act: SessionAct)
    requires act.Established? || act.Write? || act.Receive?
    ensures Moves(v, act) == View(v.calls + [Adds(v.fd, Told(act))], v.fd)
  {
  }

  lemma CloseMoves(v: View, act: SessionAct)
    requires act.ConnectFailed? || act.AbortClose? || act.CloseSocket?
    ensures Moves(v, act) ==
            View(if act.CloseSocket? && v.fd == -1 then v.calls else v.calls + [Shuts(v.fd)], -1)
  {
    assert v.calls + [] == v.calls;
  }

  lemma OwnTalkStep(s: State, i: nat, act: SessionAct, v: View)
    requires Inv(s) && CanAct(s, i, act) && Matches(s, i, v)
    requires act.Established? || act.Write? || act.Receive?
    ensures Matches(DoAct(s, i, act), i, Moves(v, act))
  {
    var fd := OwnedFd(s.sessions[i]);
    TalkMatches(s, i, fd, Told(act), v);
    TalkIsOnFd(s, i, act);
    TalkMoves(v, act);
    MatchesThrough(DoAct(s, i, act), OnFd(s, i, fd, Told(act)), i, fd, Moves(v, act));
  }

  lemma OwnCloseStep(s: State, i: nat, act: SessionAct, v: View)
    requires Inv(s) && CanAct(s, i, act) && Matches(s, i, v)
    requires act.ConnectFailed? || act.AbortClose? || act.CloseSocket?
    ensures Matches(DoAct(s, i, act), i, Moves(v, act))
  {
    var fd := OwnedFd(s.sessions[i]);
    var t := CloseFd(s, i, fd);
    CloseMatches(s, i, fd, v);
    CloseIsCloseFd(s, i, act);
    CloseMoves(v, act);
    assert Number(t.table, t.conns, i, -1) == -1;
    MatchesThrough(DoAct(s, i, act), t, i, -1, Moves(v, act));
  }

  lemma OwnOpenStep(s: State, i: nat, act: SessionAct, v: View)
    requires Inv(s) && CanAct(s, i, act) && Matches(s, i, v) && act.Socket?
    ensures Matches(DoAct(s, i, act), i, Moves(v, act))
  {
    OpenMatches(s, i, act.fd, v);
    ActEffect(s, i, act);
  }

  lemma OwnStep(s: State, i: nat, act: SessionAct, v: View)
    requires Inv(s) && CanAct(s, i, act) && Matches(s, i, v)
    ensures Matches(DoAct(s, i, act), i, Moves(v, act))
  {
    if act.Established? || act.Write? || act.Receive? {
      OwnTalkStep(s, i, act, v);
    } else if act.ConnectFailed? || act.AbortClose? || act.CloseSocket? {
      OwnCloseStep(s, i, act, v);
    } else if act.Socket? {
      OwnOpenStep(s, i, act, v);
    } else {
      OwnQuietStep(s, i, act, v);
    }
  }

  // ---------------------------------------------------------------- whole runs

  lemma {:induction false} RunMatches(s: State, i: nat, run: seq<Label>, v: View)
    requires Inv(s) && Possible(s, run) && Matches(s, i, v)
    ensures Matches(Exec(s, run), i, Alone(v, i, run))
    decreases |run|
  {
    if run != [] {
      var l := run[0];
      StepKeeps(s, l);
      if l.Act? && l.i == i {
        OwnStep(s, i, l.act, v);
        RunMatches(Apply(s, l), i, run[1..], Moves(v, l.act));
      } else {
        if i < |s.sessions| {
          OthersKeepView(s, l, i, v);
        } else {
          StrangersKeepView(s, l, i, v);
        }
        RunMatches(Apply(s, l), i, run[1..], v);
      }
    }
  }

  /**
   In every interleaving, with descriptors handed out and reused in any way, what lies on
   the connections of a session is what its own calls leave on a network of its own.
   */
  lemma SessionsAreAlone(a: Addr, data: ConfigData, run: seq<Label>, i: nat)
    requires Possible(Init(a, data), run)
    ensures OwnConns(Exec(Init(a, data), run), i) == Replay(Alone(NOTHING, i, run).calls)
  {
    InitInv(a, data);
    RunMatches(Init(a, data), i, run, NOTHING);
  }

  /**
   So what is known of a session by itself holds of it in the daemon: if its calls, taken
   alone, are those of messages run in the mail server's order, then in every interleaving
   its connections live as those that such a session leaves when nobody else runs, and
   carry the same messages with the same outcomes.
   */
  lemma SessionInDaemon(
    a: Addr, data: ConfigData, run: seq<Label>, i: nat, helo: seq<byte>, course: Program.Course)
    returns (history: seq<seq<Libmilter.Segment>>)
    requires Possible(Init(a, data), run)
    requires Program.Lawful(helo, course) && Alone(NOTHING, i, run).calls == Program.SessionCalls(course)
    ensures Libmilter.HistoryOk(helo, OwnConns(Exec(Init(a, data), run), i), history, -1)
    ensures Libmilter.CarriesAll(history) == Program.RanIn(course)
  {
    SessionsAreAlone(a, data, run, i);
    history := Libmilter.SessionLives(helo, course);
  }

  /** The same between two of its messages, the connection in use still open. */
  lemma SessionSoFar(
    a: Addr, data: ConfigData, run: seq<Label>, i: nat, helo: seq<byte>, course: Program.Course)
    returns (history: seq<seq<Libmilter.Segment>>)
    requires Possible(Init(a, data), run)
    requires Program.Lawful(helo, course) && Alone(NOTHING, i, run).calls == Program.AllCalls(course)
    ensures Libmilter.SessionOk(
              helo, OwnConns(Exec(Init(a, data), run), i), history, Program.OpenFd(course))
    ensures Libmilter.CarriesAll(history) == Program.RanIn(course)
  {
    SessionsAreAlone(a, data, run, i);
    history := Libmilter.CourseLives(helo, course);
  }
}
