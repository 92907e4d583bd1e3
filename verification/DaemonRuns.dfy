/**
 What the daemon does, and not only what it never does: a SIGHUP leads to a reload,
 sessions come, talk and go, whoever has the mutex can give it back, and a session
 goes on seeing the contents it took when it connected.
 */
module DaemonRuns {
  import opened Wire
  import opened Bytes
  import opened Daemon
  import opened DaemonInvariant
  import opened DaemonEffects
  import opened DaemonTheorems
  import opened ConfigStore

  // ---------------------------------------------------------------- signals

  /** Unless the signal is blocked, a SIGHUP starts a new activation, which goes on to load with the signal blocked. */
  lemma SignalStarts(s: State)
    requires !s.blocked
    ensures Possible(s, [Signal, Deliver, Hup(Block)])
    ensures Exec(s, [Signal, Deliver, Hup(Block)]) ==
            s.(frames := s.frames + [Frame(Loading, false)], blocked := true, pending := false)
  {
    var s1 := Apply(s, Signal);
    var s2 := Apply(s1, Deliver);
    ExecStep(s2, Hup(Block), []);
    ExecStep(s1, Deliver, [Hup(Block)]);
    ExecStep(s, Signal, [Deliver, Hup(Block)]);
  }

  /** After reload_config, the activation unblocks the signal and returns to what it interrupted. */
  lemma HandlerReturns(s: State, frames: seq<Frame>, mask: bool)
    requires s.frames == frames + [Frame(Reloaded, mask)]
    ensures Possible(s, [Hup(Unblock), Hup(Return)])
    ensures Exec(s, [Hup(Unblock), Hup(Return)]) == s.(frames := frames, blocked := mask)
  {
    var s1 := Apply(s, Hup(Unblock));
    assert s1.frames[..|s1.frames| - 1] == frames;
    ExecStep(s1, Hup(Return), []);
    ExecStep(s, Hup(Unblock), [Hup(Return)]);
  }

  /**
   A SIGHUP, with the mutex free and a file that can be read: the new set is current, the old
   one is marked, or gone if nobody holds it, and nothing else has changed.
   */
  lemma SignalReloads(s: State, made: Addr, data: ConfigData)
    requires !s.blocked && s.lock.Nobody? && s.cur in s.heap && made !in s.heap
    ensures var run := [Signal, Deliver, Hup(Block)] + ReloadRun(made, data) + [Hup(Unblock), Hup(Return)];
            && Possible(s, run)
            && Exec(s, run) == s.(heap := Replaced(s.heap, s.cur, made, data), cur := made, pending := false)
  {
    var loading := s.(frames := s.frames + [Frame(Loading, false)], blocked := true, pending := false);
    var heap := Replaced(s.heap, s.cur, made, data);
    SignalStarts(s);
    ReloadIsItsSteps(loading, made, data);
    ExecConcat(s, [Signal, Deliver, Hup(Block)], ReloadRun(made, data));
    var reloaded := Moved(loading, Reloaded, heap, made, Nobody);
    assert reloaded.frames == s.frames + [Frame(Reloaded, false)];
    HandlerReturns(reloaded, s.frames, false);
    ExecConcat(s, [Signal, Deliver, Hup(Block)] + ReloadRun(made, data), [Hup(Unblock), Hup(Return)]);
  }

  /** A SIGHUP with a file that cannot be read leaves everything as it was. */
  lemma SignalFails(s: State)
    requires !s.blocked
    ensures var run := [Signal, Deliver, Hup(Block)] + [Hup(LoadFails)] + [Hup(Unblock), Hup(Return)];
            Possible(s, run) && Exec(s, run) == s.(pending := false)
  {
    var loading := s.(frames := s.frames + [Frame(Loading, false)], blocked := true, pending := false);
    SignalStarts(s);
    ExecStep(loading, Hup(LoadFails), []);
    ExecConcat(s, [Signal, Deliver, Hup(Block)], [Hup(LoadFails)]);
    var failed := HupGoto(loading, Reloaded);
    assert failed.frames == s.frames + [Frame(Reloaded, false)];
    HandlerReturns(failed, s.frames, false);
    ExecConcat(s, [Signal, Deliver, Hup(Block)] + [Hup(LoadFails)], [Hup(Unblock), Hup(Return)]);
  }

  /** A SIGHUP is never lost: sent, it is pending, and it stays so until it is delivered. */
  lemma PendingStays(s: State, l: Label)
    requires Enabled(s, l) && (s.pending || l.Signal?) && !l.Deliver?
    ensures Apply(s, l).pending
  {
    match l
    case Act(i, act) => ActKeepsPending(s, i, act);
    case Hup(act) =>
    case _ =>
  }

  lemma ActKeepsPending(s: State, i: nat, act: SessionAct)
    requires CanAct(s, i, act)
    ensures DoAct(s, i, act).pending == s.pending
  {
  }

  /** And it can be delivered as soon as the running activation has unblocked the signal. */
  lemma PendingIsDelivered(s: State)
    requires s.pending && Enabled(s, Hup(Unblock))
    ensures Enabled(Apply(s, Hup(Unblock)), Deliver)
  {
  }

  // ---------------------------------------------------------------- the mutex

  /** The label is a step of the thread that has the mutex. */
  predicate ByOwner(lock: Owner, l: Label) {
    match lock
    case Nobody => false
    case BySession(i) => l.Act? && l.i == i
    case ByHup => l.Hup?
  }

  ghost predicate FreesLock(s: State, run: seq<Label>) {
    && Possible(s, run) && Exec(s, run).lock.Nobody?
    && forall k :: 0 <= k < |run| ==> ByOwner(s.lock, run[k])
  }

  lemma FreedLater(s: State, l: Label, run: seq<Label>)
    requires Enabled(s, l) && ByOwner(s.lock, l) && Apply(s, l).lock == s.lock
    requires FreesLock(Apply(s, l), run)
    ensures FreesLock(s, [l] + run)
  {
    ExecStep(s, l, run);
  }

  lemma SessionFreesLock(s: State, i: nat, steps: nat) returns (run: seq<Label>)
    requires i < |s.sessions| && s.lock == BySession(i) && Critical(s.sessions[i].pc)
    requires steps == match s.sessions[i].pc
                      case GetHeld => 2
                      case RelHeld => 2
                      case GetLoaded => 1
                      case RelDropped => 1
                      case _ => 0
    ensures FreesLock(s, run)
    decreases steps
  {
    var act := match s.sessions[i].pc
               case GetHeld => Load
               case GetLoaded => Count
               case RelHeld => Drop
               case RelDropped => Test
               case _ => Unlock;
    var l := Act(i, act);
    if steps == 0 {
      ExecStep(s, l, []);
      run := [l];
    } else {
      run := SessionFreesLock(Apply(s, l), i, steps - 1);
      FreedLater(s, l, run);
      run := [l] + run;
    }
  }

  lemma HupFreesLock(s: State, steps: nat) returns (run: seq<Label>)
    requires s.frames != [] && s.lock.ByHup? && HupCritical(Top(s.frames))
    requires steps == match Top(s.frames)
                      case Held(_) => 4
                      case HasOld(_, _) => 3
                      case Marked(_, _) => 2
                      case Swapped(_) => 1
                      case _ => 0
    ensures FreesLock(s, run)
    decreases steps
  {
    var act := match Top(s.frames)
               case Held(_) => TakeOld
               case HasOld(_, _) => MarkOld
               case Marked(_, _) => Swap
               case Swapped(_) => TestOld
               case _ => HupUnlock;
    var l := Hup(act);
    if steps == 0 {
      ExecStep(s, l, []);
      run := [l];
    } else {
      run := HupFreesLock(Apply(s, l), steps - 1);
      FreedLater(s, l, run);
      run := [l] + run;
    }
  }

  /** No deadlock: in every reachable state, the thread that has the mutex can give it back all by itself. */
  lemma LockIsGivenBack(s: State) returns (run: seq<Label>)
    requires Reachable(s) && !s.lock.Nobody?
    ensures FreesLock(s, run)
  {
    ReachableInv(s);
    match s.lock
    case BySession(i) =>
      run := SessionFreesLock(s, i, match s.sessions[i].pc
                                    case GetHeld => 2
                                    case RelHeld => 2
                                    case GetLoaded => 1
                                    case RelDropped => 1
                                    case _ => 0);
    case ByHup =>
      run := HupFreesLock(s, match Top(s.frames)
                             case Held(_) => 4
                             case HasOld(_, _) => 3
                             case Marked(_, _) => 2
                             case Swapped(_) => 1
                             case _ => 0);
  }

  /** A session that has not ended can move, or waits for a mutex that is taken. */
  lemma SessionMoves(s: State, i: nat) returns (act: SessionAct)
    requires i < |s.sessions| && !s.sessions[i].pc.Dead?
    ensures CanAct(s, i, act) || ((s.sessions[i].pc.Connect? || s.sessions[i].pc.Release?) && !s.lock.Nobody?)
  {
    match s.sessions[i].pc
    case GetHeld => act := Load;
    case GetLoaded => act := Count;
    case GetCounted => act := Unlock;
    case Idle => act := Receive;
    case Opening => act := Established;
    case Aborting => act := AbortClear;
    case RelHeld => act := Drop;
    case RelDropped => act := Test;
    case RelTested(_) => act := Unlock;
    case RelOut(_) => act := Finish;
    case _ => act := Lock;
  }

  /** An activation of the handler can move, or waits for a mutex that is taken. */
  lemma HandlerMoves(s: State) returns (act: HupAct)
    requires s.frames != []
    ensures CanHup(s, act) || (Top(s.frames).Loaded? && !s.lock.Nobody?)
  {
    match Top(s.frames)
    case Entered => act := Block;
    case Loading => act := LoadFails;
    case Loaded(_) => act := HupLock;
    case Held(_) => act := TakeOld;
    case HasOld(_, _) => act := MarkOld;
    case Marked(_, _) => act := Swap;
    case Swapped(_) => act := TestOld;
    case Tested(_, _) => act := HupUnlock;
    case Unlocked(_, _) => act := SwitchLog;
    case Relogged(_, _) => act := ChangeLog;
    case MayFree(_, _) => act := FreeOld;
    case Reloaded => act := Unblock;
    case Tail => act := Return;
  }

  // ---------------------------------------------------------------- sessions

  /** A client connects, with the mutex free: there is one session more, and it holds the current set. */
  lemma ClientConnects(s: State)
    requires s.lock.Nobody? && s.cur in s.heap
    ensures var i := |s.sessions|; var run := [Spawn] + GetRun(i);
            && Possible(s, run)
            && Exec(s, run) ==
               s.(heap := Taken(s.heap, s.cur), sessions := s.sessions + [Session(Idle, s.cur, -1, -1)])
  {
    var i := |s.sessions|;
    var born := Apply(s, Spawn);
    GetIsItsSteps(born, i);
    ExecStep(s, Spawn, GetRun(i));
    assert born.sessions[i := Session(Idle, s.cur, -1, -1)] == s.sessions + [Session(Idle, s.cur, -1, -1)];
  }

  /** The state `s`, but connection `c` has these events more. */
  function Heard(s: State, c: nat, events: seq<Event>): State
    requires c < |s.conns|
  {
    s.(conns := s.conns[c := s.conns[c].(log := s.conns[c].log + events)])
  }

  /** The state `s`, but connection `c`, of descriptor `fd`, is closed once more, and the number is free. */
  function Shut(s: State, fd: int, c: nat): State
    requires c < |s.conns|
  {
    s.(table := s.table - {fd}, conns := s.conns[c := s.conns[c].(closes := s.conns[c].closes + 1)])
  }

  /** A session without a descriptor may open any unused one, for a new connection of its own. */
  lemma SocketIsExact(s: State, i: nat, fd: int)
    requires i < |s.sessions| && s.sessions[i].pc.Idle? && s.sessions[i].socket == -1 && 0 <= fd && fd !in s.table
    ensures CanAct(s, i, Socket(fd))
    ensures Apply(s, Act(i, Socket(fd))) ==
            s.(sessions := s.sessions[i := s.sessions[i].(pc := Opening, newSocket := fd)],
               table := s.table[fd := |s.conns|], conns := s.conns + [Conn(i, fd, [], 0)])
  {
  }

  /** Once connected, it hears the greeting on that connection, and keeps it. */
  lemma EstablishedIsExact(s: State, i: nat)
    requires SocketInv(s.table, s.conns, s.sessions) && i < |s.sessions| && s.sessions[i].pc.Opening?
    requires s.sessions[i].newSocket != -1
    ensures var me := s.sessions[i];
            && CanAct(s, i, Established) && me.newSocket in s.table
            && var c := s.table[me.newSocket];
            && c < |s.conns| && s.conns[c].owner == i && s.conns[c].closes == 0
            && Apply(s, Act(i, Established)) ==
               Heard(s.(sessions := s.sessions[i := me.(pc := Idle, socket := me.newSocket)]), c, [Reply])
  {
  }

  /** Or it closes it, and has none. */
  lemma ConnectFailedIsExact(s: State, i: nat)
    requires SocketInv(s.table, s.conns, s.sessions) && i < |s.sessions| && s.sessions[i].pc.Opening?
    requires s.sessions[i].newSocket != -1
    ensures var me := s.sessions[i];
            && CanAct(s, i, ConnectFailed) && me.newSocket in s.table
            && var c := s.table[me.newSocket];
            && c < |s.conns| && s.conns[c].owner == i && s.conns[c].closes == 0
            && Apply(s, Act(i, ConnectFailed)) ==
               Shut(s.(sessions := s.sessions[i := me.(pc := Idle, socket := -1)]), me.newSocket, c)
  {
  }

  /** What a session writes goes to its own open connection, all of it, and nowhere else. */
  lemma WriteIsExact(s: State, i: nat, bytes: seq<byte>)
    requires SocketInv(s.table, s.conns, s.sessions) && i < |s.sessions| && s.sessions[i].pc.Idle?
    requires s.sessions[i].socket != -1
    ensures var fd := s.sessions[i].socket;
            && CanAct(s, i, Write(bytes)) && fd in s.table
            && var c := s.table[fd];
            && c < |s.conns| && s.conns[c].owner == i && s.conns[c].closes == 0
            && Apply(s, Act(i, Write(bytes))) == Heard(s, c, Say(bytes))
  {
    assert s.sessions[i := s.sessions[i]] == s.sessions;
  }

  /** Likewise what it reads. */
  lemma ReceiveIsExact(s: State, i: nat)
    requires SocketInv(s.table, s.conns, s.sessions) && i < |s.sessions| && s.sessions[i].pc.Idle?
    requires s.sessions[i].socket != -1
    ensures var fd := s.sessions[i].socket;
            && CanAct(s, i, Receive) && fd in s.table
            && var c := s.table[fd];
            && c < |s.conns| && s.conns[c].owner == i && s.conns[c].closes == 0
            && Apply(s, Act(i, Receive)) == Heard(s, c, [Reply])
  {
    assert s.sessions[i := s.sessions[i]] == s.sessions;
  }

  /** Reading its settings changes nothing, while the session talks or opens a connection. */
  lemma ReadConfigIsExact(s: State, i: nat)
    requires Inv(s) && i < |s.sessions| && (s.sessions[i].pc.Idle? || s.sessions[i].pc.Opening?)
    ensures CanAct(s, i, ReadConfig) && Apply(s, Act(i, ReadConfig)) == s
  {
    assert s.sessions[i := s.sessions[i]] == s.sessions;
  }

  lemma AbortCloses(s: State, i: nat)
    requires SocketInv(s.table, s.conns, s.sessions) && i < |s.sessions| && s.sessions[i].pc.Idle?
    requires s.sessions[i].socket != -1
    ensures var me := s.sessions[i];
            && CanAct(s, i, AbortClose) && me.socket in s.table
            && var c := s.table[me.socket];
            && c < |s.conns| && s.conns[c].owner == i && s.conns[c].closes == 0
            && Apply(s, Act(i, AbortClose)) ==
               Shut(s.(sessions := s.sessions[i := me.(pc := Aborting)]), me.socket, c)
  {
  }

  lemma AbortClears(s: State, i: nat)
    requires i < |s.sessions| && s.sessions[i].pc.Aborting?
    ensures Possible(s, [Act(i, AbortClear)])
    ensures Exec(s, [Act(i, AbortClear)]) ==
            s.(sessions := s.sessions[i := s.sessions[i].(pc := Idle, socket := -1)])
  {
    ExecStep(s, Act(i, AbortClear), []);
  }

  lemma ShutAndSessions(s: State, fd: int, c: nat, sessions: seq<Session>, sessions': seq<Session>)
    requires c < |s.conns|
    ensures Shut(s.(sessions := sessions), fd, c).(sessions := sessions') == Shut(s.(sessions := sessions'), fd, c)
  {
  }

  /** An abort closes the session's connection, and leaves the session without one. */
  lemma AbortIsExact(s: State, i: nat)
    requires SocketInv(s.table, s.conns, s.sessions) && i < |s.sessions| && s.sessions[i].pc.Idle?
    requires s.sessions[i].socket != -1
    ensures s.sessions[i].socket in s.table
    ensures var me := s.sessions[i]; var run := [Act(i, AbortClose)] + [Act(i, AbortClear)];
            var c := s.table[me.socket];
            && Possible(s, run)
            && c < |s.conns| && s.conns[c].owner == i && s.conns[c].closes == 0
            && Exec(s, run) == Shut(s.(sessions := s.sessions[i := me.(socket := -1)]), me.socket, c)
  {
    var me := s.sessions[i];
    AbortCloses(s, i);
    var c := s.table[me.socket];
    var aborting := s.sessions[i := me.(pc := Aborting)];
    var closed := Shut(s.(sessions := aborting), me.socket, c);
    AbortClears(closed, i);
    ExecStep(s, Act(i, AbortClose), [Act(i, AbortClear)]);
    assert aborting[i := me.(socket := -1)] == s.sessions[i := me.(socket := -1)];
    ShutAndSessions(s, me.socket, c, aborting, s.sessions[i := me.(socket := -1)]);
  }

  /** A close closes the session's connection, if it has one, and goes on to give the configuration back. */
  lemma CloseIsExact(s: State, i: nat)
    requires SocketInv(s.table, s.conns, s.sessions) && i < |s.sessions| && s.sessions[i].pc.Idle?
    ensures var fd := s.sessions[i].socket;
            var released := s.(sessions := s.sessions[i := s.sessions[i].(pc := Release)]);
            && CanAct(s, i, CloseSocket)
            && if fd == -1 then Apply(s, Act(i, CloseSocket)) == released
               else
                 && fd in s.table && s.table[fd] < |s.conns|
                 && s.conns[s.table[fd]].owner == i && s.conns[s.table[fd]].closes == 0
                 && Apply(s, Act(i, CloseSocket)) == Shut(released, fd, s.table[fd])
  {
  }

  /** The rest of a close, with the mutex free: the session has ended, and its reference is given back. */
  lemma ClientLeaves(s: State, i: nat)
    requires Inv(s) && i < |s.sessions| && s.sessions[i].pc.Idle? && s.lock.Nobody?
    ensures var run := [Act(i, CloseSocket)] + ReleaseRun(i);
            && Possible(s, run)
            && s.sessions[i].config in s.heap
            && var s' := Exec(s, run);
            && s'.sessions == s.sessions[i := s.sessions[i].(pc := Dead)]
            && s'.heap == Dropped(s.heap, s.sessions[i].config) && s'.cur == s.cur && s'.lock.Nobody?
            && s'.conns == Apply(s, Act(i, CloseSocket)).conns && s'.table == Apply(s, Act(i, CloseSocket)).table
  {
    var me := s.sessions[i];
    var closed := Apply(s, Act(i, CloseSocket));
    CloseIsExact(s, i);
    ReleaseIsItsSteps(closed, i);
    ExecStep(s, Act(i, CloseSocket), ReleaseRun(i));
    assert s.sessions[i := me.(pc := Release)][i := me.(pc := Dead)] == s.sessions[i := me.(pc := Dead)];
  }

  // ---------------------------------------------------------------- the configuration a session took

  /** Session `i` still has the set at `a`, with these contents. */
  ghost predicate Has(s: State, i: nat, a: Addr, data: ConfigData) {
    && i < |s.sessions| && Pins(s.sessions[i].pc) && s.sessions[i].config == a
    && a in s.heap && s.heap[a].data == data
  }

  predicate Drops(l: Label, i: nat) {
    l == Act(i, Drop)
  }

  lemma HasStep(s: State, l: Label, i: nat, a: Addr, data: ConfigData)
    requires Inv(s) && Enabled(s, l) && Has(s, i, a, data) && !Drops(l, i) && !s.sessions[i].pc.RelDropped?
    ensures Has(Apply(s, l), i, a, data) && !Apply(s, l).sessions[i].pc.RelDropped?
  {
    StepKeeps(s, l);
    if NotBy(l, i) {
      OthersStep(s, l, i);
    } else {
      ActEffect(s, i, l.act);
      OwnPins(s, i, l.act);
      HeapEffect(s, l, a);
    }
  }

  lemma OwnPins(s: State, i: nat, act: SessionAct)
    requires CanAct(s, i, act) && Pins(s.sessions[i].pc) && !act.Drop? && !s.sessions[i].pc.RelDropped?
    ensures Pins(Next(s, i, act).pc) && Next(s, i, act).config == s.sessions[i].config
    ensures !Next(s, i, act).pc.RelDropped?
  {
  }

  lemma {:induction false} HasRun(s: State, run: seq<Label>, i: nat, a: Addr, data: ConfigData)
    requires Inv(s) && Possible(s, run) && Has(s, i, a, data) && !s.sessions[i].pc.RelDropped?
    requires forall k :: 0 <= k < |run| ==> !Drops(run[k], i)
    ensures Has(Exec(s, run), i, a, data)
    decreases |run|
  {
    if run != [] {
      HasStep(s, run[0], i, a, data);
      StepKeeps(s, run[0]);
      assert forall k :: 0 <= k < |run| - 1 ==> run[1..][k] == run[k + 1];
      HasRun(Apply(s, run[0]), run[1..], i, a, data);
    }
  }

  /**
   From the moment a session reads which set is current until it drops its reference,
   whatever anyone does, it has that set, and the set has the contents it had then,
   reloaded or retired as it may be.
   */
  lemma ConfigStays(s: State, i: nat, run: seq<Label>)
    requires Reachable(s) && Enabled(s, Act(i, Load)) && Possible(Apply(s, Act(i, Load)), run)
    requires forall k :: 0 <= k < |run| ==> !Drops(run[k], i)
    ensures s.cur in s.heap && Has(Exec(Apply(s, Act(i, Load)), run), i, s.cur, s.heap[s.cur].data)
  {
    ReachableInv(s);
    StepKeeps(s, Act(i, Load));
    HasRun(Apply(s, Act(i, Load)), run, i, s.cur, s.heap[s.cur].data);
  }
}
