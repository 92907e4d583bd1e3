/**
 What every step of the daemon keeps. The invariant has one part a resource:
 the mutex, the handler stack, the configuration heap, the reference counts, the
 delete flags, the decision who frees, and the descriptors.
 */
module DaemonInvariant {
  import opened Bytes
  import opened Wire
  import opened Daemon

  type Heap = map<Addr, ConfigSet>

  // ---------------------------------------------------------------- vocabulary

  predicate Critical(pc: SessionPc) {
    pc.GetHeld? || pc.GetLoaded? || pc.GetCounted? || pc.RelHeld? || pc.RelDropped? || pc.RelTested?
  }

  predicate HupCritical(hup: HupPc) {
    hup.Held? || hup.HasOld? || hup.Marked? || hup.Swapped? || hup.Tested?
  }

  /** The session has a reference that is counted in `cs_refcount`. */
  predicate Counted(pc: SessionPc) {
    pc.GetCounted? || pc.Idle? || pc.Opening? || pc.Aborting? || pc.Release? || pc.RelHeld?
  }

  /** The session may still dereference its pointer. */
  predicate Pins(pc: SessionPc) {
    Counted(pc) || pc.GetLoaded? || pc.RelDropped?
  }

  predicate Connecting(pc: SessionPc) {
    pc.Connect? || pc.GetHeld? || pc.GetLoaded? || pc.GetCounted?
  }

  /** The session's reference to `a` is counted. */
  predicate Holds(m: Session, a: Addr) {
    Counted(m.pc) && m.config == a
  }

  /** The sessions whose reference to `a` is counted. */
  ghost function Holders(sessions: seq<Session>, a: Addr): set<nat> {
    set i | 0 <= i < |sessions| && Holds(sessions[i], a)
  }

  ghost function HolderCount(sessions: seq<Session>, a: Addr): nat {
    |Holders(sessions, a)|
  }

  /** `a` is a new set that the reload thread has made but not yet published. */
  predicate Unpublished(hup: HupPc, a: Addr) {
    (hup.Loaded? || hup.Held? || hup.HasOld? || hup.Marked?) && hup.made == a
  }

  /** `a` was published once and is no longer current. */
  predicate Retired(heap: Heap, cur: Addr, hup: HupPc, a: Addr) {
    a in heap && a != cur && !Unpublished(hup, a)
  }

  /** Session `m` is the thread that will free `a`. */
  predicate SessionFrees(heap: Heap, m: Session, a: Addr) {
    m.config == a &&
    match m.pc
    case RelDropped => a in heap && heap[a].refcount == 0 && heap[a].delflg
    case RelTested(free) => free
    case RelOut(free) => free
    case _ => false
  }

  /** The reload thread will free `a`. */
  predicate HupFrees(heap: Heap, hup: HupPc, a: Addr) {
    match hup
    case Swapped(prior) => prior == a && a in heap && heap[a].refcount == 0
    case Tested(prior, free) => prior == a && free
    case Unlocked(prior, free) => prior == a && free
    case Relogged(prior, free) => prior == a && free
    case MayFree(prior, free) => prior == a && free
    case _ => false
  }

  /** Thread `t` will free `a`; thread -1 is the reload thread. */
  predicate WillFree(heap: Heap, hup: HupPc, sessions: seq<Session>, t: int, a: Addr) {
    if t == -1 then HupFrees(heap, hup, a)
    else 0 <= t < |sessions| && SessionFrees(heap, sessions[t], a)
  }

  ghost predicate Doomed(heap: Heap, hup: HupPc, sessions: seq<Session>, a: Addr) {
    exists t :: WillFree(heap, hup, sessions, t, a)
  }

  /** The descriptor a session owns, or -1. */
  function OwnedFd(m: Session): int {
    match m.pc
    case Opening => m.newSocket
    case Idle => m.socket
    case _ => -1
  }

  // ---------------------------------------------------------------- the invariant

  /** The mutex is held by exactly the thread that is inside a critical section. */
  ghost predicate LockInv(lock: Owner, hup: HupPc, sessions: seq<Session>) {
    && (forall i :: 0 <= i < |sessions| ==> (Critical(sessions[i].pc) <==> lock == BySession(i)))
    && (lock.BySession? ==> lock.i < |sessions|)
    && (HupCritical(hup) <==> lock.ByHup?)
  }

  /** Only the top activation of the handler can be anywhere but at its end. */
  ghost predicate StackInv(frames: seq<Frame>, blocked: bool) {
    && (forall k :: 0 <= k < |frames| - 1 ==> frames[k].pc == Tail)
    && (forall k :: 0 <= k < |frames| ==> !frames[k].savedMask)
    && (blocked <==> !Top(frames).Tail?)
  }

  /** The addresses the reload thread works with are what it takes them for. */
  ghost predicate HupInv(heap: Heap, cur: Addr, hup: HupPc) {
    && cur in heap
    && !Unpublished(hup, cur)
    && (hup.Loaded? || hup.Held? || hup.HasOld? || hup.Marked? ==> hup.made in heap)
    && (hup.HasOld? || hup.Marked? ==> hup.prior == cur)
    && (hup.Swapped? ==> Retired(heap, cur, hup, hup.prior))
  }

  /** Every pointer a session may still follow leads to a live, published set. */
  ghost predicate PinInv(heap: Heap, cur: Addr, hup: HupPc, sessions: seq<Session>) {
    forall i :: 0 <= i < |sessions| && Pins(sessions[i].pc) ==>
      && sessions[i].config in heap
      && !Unpublished(hup, sessions[i].config)
      && (sessions[i].pc.GetLoaded? || sessions[i].pc.GetCounted? ==> sessions[i].config == cur)
  }

  ghost predicate CountInv(heap: Heap, sessions: seq<Session>) {
    forall a :: a in heap ==> heap[a].refcount == HolderCount(sessions, a)
  }

  ghost predicate FlagInv(heap: Heap, cur: Addr, hup: HupPc) {
    forall a :: a in heap ==>
      (heap[a].delflg <==> Retired(heap, cur, hup, a) || (a == cur && hup.Marked?))
  }

  /** A retired set is waiting for one thread to free it exactly when its count is zero. */
  ghost predicate FreeInv(heap: Heap, cur: Addr, hup: HupPc, sessions: seq<Session>) {
    && (forall t, a :: WillFree(heap, hup, sessions, t, a) ==>
          Retired(heap, cur, hup, a) && heap[a].refcount == 0)
    && (forall t, u, a :: WillFree(heap, hup, sessions, t, a) && WillFree(heap, hup, sessions, u, a) ==> t == u)
    && (forall a :: Retired(heap, cur, hup, a) && heap[a].refcount == 0 ==> Doomed(heap, hup, sessions, a))
  }

  /** Open descriptors and the sessions that own one correspond one to one. */
  ghost predicate SocketInv(table: map<int, nat>, conns: seq<Conn>, sessions: seq<Session>) {
    && (forall fd :: fd in table ==>
          && 0 <= fd
          && table[fd] < |conns|
          && conns[table[fd]].closes == 0
          && conns[table[fd]].fd == fd
          && conns[table[fd]].owner < |sessions|
          && OwnedFd(sessions[conns[table[fd]].owner]) == fd)
    && (forall i :: 0 <= i < |sessions| && OwnedFd(sessions[i]) != -1 ==>
          && OwnedFd(sessions[i]) in table
          && conns[table[OwnedFd(sessions[i])]].owner == i)
    && (forall i :: 0 <= i < |sessions| && Connecting(sessions[i].pc) ==> sessions[i].socket == -1)
    && (forall c :: 0 <= c < |conns| ==>
          && conns[c].owner < |sessions|
          && conns[c].closes <= 1
          && (conns[c].closes == 0 ==> conns[c].fd in table && table[conns[c].fd] == c))
  }

  ghost predicate ConfigInv(heap: Heap, cur: Addr, lock: Owner, hup: HupPc, sessions: seq<Session>) {
    && LockInv(lock, hup, sessions)
    && HupInv(heap, cur, hup)
    && PinInv(heap, cur, hup, sessions)
    && CountInv(heap, sessions)
    && FlagInv(heap, cur, hup)
    && FreeInv(heap, cur, hup, sessions)
  }

  ghost predicate Inv(s: State) {
    && ConfigInv(s.heap, s.cur, s.lock, Top(s.frames), s.sessions)
    && StackInv(s.frames, s.blocked)
    && SocketInv(s.table, s.conns, s.sessions)
    && s.faults == {}
  }

  lemma InitInv(a: Addr, data: ConfigData)
    ensures Inv(Init(a, data))
  {
  }

  // ---------------------------------------------------------------- reference counts

  /** Replacing one session moves at most that session in or out of a holder set. */
  lemma HolderCountUpdate(sessions: seq<Session>, i: nat, m: Session, a: Addr)
    requires i < |sessions|
    ensures HolderCount(sessions[i := m], a) ==
            HolderCount(sessions, a)
            - (if Holds(sessions[i], a) then 1 else 0)
            + (if Holds(m, a) then 1 else 0)
  {
    var others := Holders(sessions, a) - {i};
    assert Holders(sessions, a) == if Holds(sessions[i], a) then others + {i} else others;
    assert Holders(sessions[i := m], a) == if Holds(m, a) then others + {i} else others;
  }

  lemma HolderCountAppend(sessions: seq<Session>, m: Session, a: Addr)
    requires !Counted(m.pc)
    ensures HolderCount(sessions + [m], a) == HolderCount(sessions, a)
  {
    var all := sessions + [m];
    forall i | i in Holders(all, a) ensures i in Holders(sessions, a) {
      assert i < |sessions|;
    }
    forall i | i in Holders(sessions, a) ensures i in Holders(all, a) {
      assert all[i] == sessions[i];
    }
    assert Holders(all, a) == Holders(sessions, a);
  }

  lemma CountsFollow(heap: Heap, heap': Heap, sessions: seq<Session>, i: nat, m: Session)
    requires i < |sessions| && CountInv(heap, sessions)
    requires forall a :: a in heap' ==> a in heap
    requires forall a :: a in heap' ==>
      heap'[a].refcount == heap[a].refcount - (if Holds(sessions[i], a) then 1 else 0) + (if Holds(m, a) then 1 else 0)
    ensures CountInv(heap', sessions[i := m])
  {
    forall a | a in heap' ensures heap'[a].refcount == HolderCount(sessions[i := m], a) {
      HolderCountUpdate(sessions, i, m, a);
    }
  }

  lemma HolderIsCounted(sessions: seq<Session>, i: nat, a: Addr)
    requires i < |sessions| && Holds(sessions[i], a)
    ensures HolderCount(sessions, a) >= 1
  {
    assert i in Holders(sessions, a);
  }

  // ---------------------------------------------------------------- who frees

  /** FreeInv depends only on who frees what and on which retired sets have no count. */
  lemma FreesTransfer(
    heap: Heap, cur: Addr, hup: HupPc, sessions: seq<Session>,
    heap': Heap, cur': Addr, hup': HupPc, sessions': seq<Session>)
    requires FreeInv(heap, cur, hup, sessions)
    requires forall t, a :: WillFree(heap', hup', sessions', t, a) <==> WillFree(heap, hup, sessions, t, a)
    requires forall a :: Retired(heap', cur', hup', a) <==> Retired(heap, cur, hup, a)
    requires forall a :: Retired(heap', cur', hup', a) ==> a in heap && heap'[a].refcount == heap[a].refcount
    ensures FreeInv(heap', cur', hup', sessions')
  {
    forall a | Retired(heap', cur', hup', a) && heap'[a].refcount == 0 ensures Doomed(heap', hup', sessions', a) {
      assert Doomed(heap, hup, sessions, a);
      var t :| WillFree(heap, hup, sessions, t, a);
      assert WillFree(heap', hup', sessions', t, a);
    }
  }

  /** A session's step that decides nothing about freeing keeps that part. */
  lemma FreesFollow(heap: Heap, cur: Addr, hup: HupPc, sessions: seq<Session>, i: nat, m: Session)
    requires i < |sessions| && FreeInv(heap, cur, hup, sessions)
    requires forall a :: SessionFrees(heap, m, a) <==> SessionFrees(heap, sessions[i], a)
    ensures FreeInv(heap, cur, hup, sessions[i := m])
  {
    FreesTransfer(heap, cur, hup, sessions, heap, cur, hup, sessions[i := m]);
  }

  /** Nobody else has a use for a set at the moment it is freed. */
  lemma FreedIsUnused(s: State, t: int, a: Addr)
    requires Inv(s) && WillFree(s.heap, Top(s.frames), s.sessions, t, a)
    ensures Retired(s.heap, s.cur, Top(s.frames), a)
    ensures Holders(s.sessions, a) == {}
    ensures forall i :: 0 <= i < |s.sessions| && Pins(s.sessions[i].pc) && s.sessions[i].config == a ==> i == t
    ensures Top(s.frames).Swapped? && Top(s.frames).prior == a ==> t == -1
  {
    var hup := Top(s.frames);
    assert Retired(s.heap, s.cur, hup, a) && s.heap[a].refcount == 0;
    forall i | 0 <= i < |s.sessions| && Pins(s.sessions[i].pc) && s.sessions[i].config == a ensures i == t {
      if Counted(s.sessions[i].pc) {
        HolderIsCounted(s.sessions, i, a);
      } else if s.sessions[i].pc.RelDropped? {
        assert WillFree(s.heap, hup, s.sessions, i, a);
      }
    }
    if hup.Swapped? && hup.prior == a {
      assert WillFree(s.heap, hup, s.sessions, -1, a);
    }
  }

  // ---------------------------------------------------------------- lock and pointers

  lemma LockFollows(lock: Owner, lock': Owner, hup: HupPc, sessions: seq<Session>, i: nat, m: Session)
    requires i < |sessions| && LockInv(lock, hup, sessions)
    requires if Critical(m.pc) then lock' == BySession(i) && (lock == lock' || lock.Nobody?)
             else if lock == BySession(i) then lock' == Nobody
             else lock' == lock
    ensures LockInv(lock', hup, sessions[i := m])
  {
  }

  lemma PinsFollow(heap: Heap, heap': Heap, cur: Addr, hup: HupPc, sessions: seq<Session>, i: nat, m: Session)
    requires i < |sessions| && PinInv(heap, cur, hup, sessions)
    requires forall j :: 0 <= j < |sessions| && j != i && Pins(sessions[j].pc) ==> sessions[j].config in heap'
    requires Pins(m.pc) ==>
      m.config in heap' && !Unpublished(hup, m.config) && (m.pc.GetLoaded? || m.pc.GetCounted? ==> m.config == cur)
    ensures PinInv(heap', cur, hup, sessions[i := m])
  {
  }

  // ---------------------------------------------------------------- session steps on the descriptors

  /** A step that leaves the descriptors, and what the session owns of them, as they were. */
  lemma KeepsSockets(table: map<int, nat>, conns: seq<Conn>, sessions: seq<Session>, i: nat, m: Session)
    requires i < |sessions| && SocketInv(table, conns, sessions)
    requires OwnedFd(m) == OwnedFd(sessions[i])
    requires Connecting(m.pc) ==> m.socket == -1
    ensures SocketInv(table, conns, sessions[i := m])
  {
  }

  /** A session's step that leaves its part in the configuration protocol as it was. */
  lemma KeepsConfig(heap: Heap, cur: Addr, lock: Owner, hup: HupPc, sessions: seq<Session>, i: nat, m: Session)
    requires i < |sessions| && ConfigInv(heap, cur, lock, hup, sessions)
    requires m.config == sessions[i].config
    requires Counted(m.pc) && Counted(sessions[i].pc)
    requires !Critical(m.pc) && !Critical(sessions[i].pc)
    ensures ConfigInv(heap, cur, lock, hup, sessions[i := m])
  {
    LockFollows(lock, lock, hup, sessions, i, m);
    PinsFollow(heap, heap, cur, hup, sessions, i, m);
    CountsFollow(heap, heap, sessions, i, m);
    FreesFollow(heap, cur, hup, sessions, i, m);
  }

  /** Closing what one owns. */
  lemma CloseKeeps(table: map<int, nat>, conns: seq<Conn>, sessions: seq<Session>, i: nat, m: Session, fd: int)
    requires i < |sessions| && SocketInv(table, conns, sessions)
    requires fd == OwnedFd(sessions[i]) != -1 && OwnedFd(m) == -1 && !Connecting(m.pc)
    ensures var c := table[fd];
            SocketInv(table - {fd}, conns[c := conns[c].(closes := conns[c].closes + 1)], sessions[i := m])
  {
  }

  lemma LogKeeps(table: map<int, nat>, conns: seq<Conn>, sessions: seq<Session>, c: nat, log: seq<Event>)
    requires c < |conns| && SocketInv(table, conns, sessions)
    ensures SocketInv(table, conns[c := conns[c].(log := log)], sessions)
  {
  }

  lemma SocketKeeps(table: map<int, nat>, conns: seq<Conn>, sessions: seq<Session>, i: nat, m: Session, fd: int)
    requires i < |sessions| && SocketInv(table, conns, sessions)
    requires OwnedFd(sessions[i]) == -1 && 0 <= fd && fd !in table
    requires OwnedFd(m) == fd && !Connecting(m.pc)
    ensures SocketInv(table[fd := |conns|], conns + [Conn(i, fd, [], 0)], sessions[i := m])
  {
  }

  lemma KeepsInv(s: State, i: nat, m: Session, s': State)
    requires Inv(s) && i < |s.sessions|
    requires s' == s.(sessions := s.sessions[i := m], table := s'.table, conns := s'.conns)
    requires m.config == s.sessions[i].config
    requires Counted(m.pc) && Counted(s.sessions[i].pc)
    requires !Critical(m.pc) && !Critical(s.sessions[i].pc)
    requires SocketInv(s'.table, s'.conns, s'.sessions)
    ensures Inv(s')
  {
    KeepsConfig(s.heap, s.cur, s.lock, Top(s.frames), s.sessions, i, m);
  }

  /** Reading, writing or keeping the descriptor one owns. */
  lemma TalkKeeps(s: State, i: nat, m: Session, events: seq<Event>)
    requires Inv(s) && i < |s.sessions|
    requires m.config == s.sessions[i].config && OwnedFd(m) == OwnedFd(s.sessions[i])
    requires m.pc.Idle? || m.pc.Aborting?
    requires s.sessions[i].pc.Idle? || s.sessions[i].pc.Opening? || s.sessions[i].pc.Aborting?
    ensures Inv(OnFd(s.(sessions := s.sessions[i := m]), i, OwnedFd(m), events))
  {
    var fd := OwnedFd(m);
    var s' := OnFd(s.(sessions := s.sessions[i := m]), i, fd, events);
    KeepsSockets(s.table, s.conns, s.sessions, i, m);
    if fd != -1 {
      var c := s.table[fd];
      assert s.conns[c].owner == i;
      LogKeeps(s.table, s.conns, s.sessions[i := m], c, s.conns[c].log + events);
    }
    KeepsInv(s, i, m, s');
  }

  lemma HangUpSockets(s: State, i: nat, m: Session)
    requires SocketInv(s.table, s.conns, s.sessions) && s.faults == {} && i < |s.sessions|
    requires OwnedFd(m) == -1 && !Connecting(m.pc)
    ensures var s' := CloseFd(s.(sessions := s.sessions[i := m]), i, OwnedFd(s.sessions[i]));
            && SocketInv(s'.table, s'.conns, s'.sessions)
            && s' == s.(sessions := s.sessions[i := m], table := s'.table, conns := s'.conns)
  {
    var fd := OwnedFd(s.sessions[i]);
    if fd != -1 {
      assert s.conns[s.table[fd]].owner == i;
      CloseKeeps(s.table, s.conns, s.sessions, i, m, fd);
    } else {
      KeepsSockets(s.table, s.conns, s.sessions, i, m);
    }
  }

  /** Closing the descriptor one owns, if any. */
  lemma HangUpKeeps(s: State, i: nat, m: Session)
    requires Inv(s) && i < |s.sessions|
    requires m.config == s.sessions[i].config && OwnedFd(m) == -1
    requires (m.pc.Idle? || m.pc.Aborting? || m.pc.Release?) && (s.sessions[i].pc.Idle? || s.sessions[i].pc.Opening?)
    ensures Inv(CloseFd(s.(sessions := s.sessions[i := m]), i, OwnedFd(s.sessions[i])))
  {
    HangUpSockets(s, i, m);
    KeepsInv(s, i, m, CloseFd(s.(sessions := s.sessions[i := m]), i, OwnedFd(s.sessions[i])));
  }

  lemma EstablishedKeeps(s: State, i: nat)
    requires Inv(s) && CanAct(s, i, Established)
    ensures Inv(DoAct(s, i, Established))
  {
    TalkKeeps(s, i, DoAct(s, i, Established).sessions[i], [Reply]);
  }

  lemma ReadConfigKeeps(s: State, i: nat)
    requires Inv(s) && CanAct(s, i, ReadConfig)
    ensures DoAct(s, i, ReadConfig) == s
  {
  }

  lemma WriteKeeps(s: State, i: nat, bytes: seq<byte>)
    requires Inv(s) && CanAct(s, i, Write(bytes))
    ensures Inv(DoAct(s, i, Write(bytes)))
  {
    assert s.(sessions := s.sessions[i := s.sessions[i]]) == s;
    TalkKeeps(s, i, s.sessions[i], Say(bytes));
  }

  lemma ReceiveKeeps(s: State, i: nat)
    requires Inv(s) && CanAct(s, i, Receive)
    ensures Inv(DoAct(s, i, Receive))
  {
    assert s.(sessions := s.sessions[i := s.sessions[i]]) == s;
    TalkKeeps(s, i, s.sessions[i], [Reply]);
  }

  lemma AbortClearKeeps(s: State, i: nat)
    requires Inv(s) && CanAct(s, i, AbortClear)
    ensures Inv(DoAct(s, i, AbortClear))
  {
    TalkKeeps(s, i, DoAct(s, i, AbortClear).sessions[i], []);
  }

  lemma SocketOpenKeeps(s: State, i: nat, fd: int)
    requires Inv(s) && CanAct(s, i, Socket(fd))
    ensures Inv(DoAct(s, i, Socket(fd)))
  {
    var s' := DoAct(s, i, Socket(fd));
    SocketKeeps(s.table, s.conns, s.sessions, i, s'.sessions[i], fd);
    KeepsInv(s, i, s'.sessions[i], s');
  }

  // ---------------------------------------------------------------- get_config and release_config

  /** A store step of session `i` that leaves the heap and the decision who frees alone. */
  lemma StoreStepKeeps(s: State, i: nat, m: Session, lock: Owner)
    requires Inv(s) && i < |s.sessions|
    requires LockInv(lock, Top(s.frames), s.sessions[i := m])
    requires Pins(m.pc) ==> m.config in s.heap && !Unpublished(Top(s.frames), m.config) &&
                            (m.pc.GetLoaded? || m.pc.GetCounted? ==> m.config == s.cur)
    requires OwnedFd(m) == OwnedFd(s.sessions[i]) && (Connecting(m.pc) ==> m.socket == -1)
    requires forall a :: Holds(m, a) <==> Holds(s.sessions[i], a)
    requires forall a :: SessionFrees(s.heap, m, a) <==> SessionFrees(s.heap, s.sessions[i], a)
    ensures Inv(s.(sessions := s.sessions[i := m], lock := lock))
  {
    KeepsSockets(s.table, s.conns, s.sessions, i, m);
    PinsFollow(s.heap, s.heap, s.cur, Top(s.frames), s.sessions, i, m);
    CountsFollow(s.heap, s.heap, s.sessions, i, m);
    FreesFollow(s.heap, s.cur, Top(s.frames), s.sessions, i, m);
  }

  lemma LockKeeps(s: State, i: nat)
    requires Inv(s) && CanAct(s, i, Lock)
    ensures Inv(DoAct(s, i, Lock))
  {
    var m := DoAct(s, i, Lock).sessions[i];
    LockFollows(s.lock, BySession(i), Top(s.frames), s.sessions, i, m);
    StoreStepKeeps(s, i, m, BySession(i));
  }

  lemma LoadKeeps(s: State, i: nat)
    requires Inv(s) && CanAct(s, i, Load)
    ensures Inv(DoAct(s, i, Load))
  {
    var m := DoAct(s, i, Load).sessions[i];
    LockFollows(s.lock, s.lock, Top(s.frames), s.sessions, i, m);
    StoreStepKeeps(s, i, m, s.lock);
  }

  lemma UnlockKeeps(s: State, i: nat)
    requires Inv(s) && CanAct(s, i, Unlock)
    ensures Inv(DoAct(s, i, Unlock))
  {
    var m := DoAct(s, i, Unlock).sessions[i];
    LockFollows(s.lock, Nobody, Top(s.frames), s.sessions, i, m);
    StoreStepKeeps(s, i, m, Nobody);
  }

  lemma TestKeeps(s: State, i: nat)
    requires Inv(s) && CanAct(s, i, Test)
    ensures Inv(DoAct(s, i, Test))
  {
    var m := DoAct(s, i, Test).sessions[i];
    LockFollows(s.lock, s.lock, Top(s.frames), s.sessions, i, m);
    StoreStepKeeps(s, i, m, s.lock);
  }

  lemma CountKeeps(s: State, i: nat)
    requires Inv(s) && CanAct(s, i, Count)
    ensures Inv(DoAct(s, i, Count))
  {
    var s' := DoAct(s, i, Count);
    var m := s'.sessions[i];
    KeepsSockets(s.table, s.conns, s.sessions, i, m);
    LockFollows(s.lock, s.lock, Top(s.frames), s.sessions, i, m);
    PinsFollow(s.heap, s'.heap, s.cur, Top(s.frames), s.sessions, i, m);
    CountsFollow(s.heap, s'.heap, s.sessions, i, m);
    CountKeepsFrees(s, i);
  }

  /** Only the current set gains a reference, and nobody is about to free that one. */
  lemma CountKeepsFrees(s: State, i: nat)
    requires Inv(s) && CanAct(s, i, Count)
    ensures var s' := DoAct(s, i, Count); FreeInv(s'.heap, s.cur, Top(s.frames), s'.sessions)
  {
    var s' := DoAct(s, i, Count);
    FreesTransfer(s.heap, s.cur, Top(s.frames), s.sessions, s'.heap, s.cur, Top(s.frames), s'.sessions);
  }

  /** The last reference to a retired set decides that its owner frees it. */
  lemma DropKeepsFrees(s: State, i: nat)
    requires Inv(s) && CanAct(s, i, Drop)
    ensures var s' := DoAct(s, i, Drop); FreeInv(s'.heap, s.cur, Top(s.frames), s'.sessions)
  {
    var s' := DoAct(s, i, Drop);
    var hup := Top(s.frames);
    var x := s.sessions[i].config;
    HolderIsCounted(s.sessions, i, x);
    assert s.heap[x].refcount >= 1;
    forall t ensures !WillFree(s.heap, hup, s.sessions, t, x) {
    }
    forall t, a | a != x
      ensures WillFree(s'.heap, hup, s'.sessions, t, a) <==> WillFree(s.heap, hup, s.sessions, t, a)
    {
    }
    forall t ensures WillFree(s'.heap, hup, s'.sessions, t, x) <==>
                     t == i && Retired(s.heap, s.cur, hup, x) && s'.heap[x].refcount == 0 {
      assert !WillFree(s.heap, hup, s.sessions, t, x);
    }
    forall a | Retired(s'.heap, s.cur, hup, a) && s'.heap[a].refcount == 0
      ensures Doomed(s'.heap, hup, s'.sessions, a)
    {
      if a == x {
        assert WillFree(s'.heap, hup, s'.sessions, i, x);
      } else {
        assert Doomed(s.heap, hup, s.sessions, a);
        var t :| WillFree(s.heap, hup, s.sessions, t, a);
        assert WillFree(s'.heap, hup, s'.sessions, t, a);
      }
    }
  }

  lemma DropKeeps(s: State, i: nat)
    requires Inv(s) && CanAct(s, i, Drop)
    ensures Inv(DoAct(s, i, Drop))
  {
    var s' := DoAct(s, i, Drop);
    var m := s'.sessions[i];
    KeepsSockets(s.table, s.conns, s.sessions, i, m);
    LockFollows(s.lock, s.lock, Top(s.frames), s.sessions, i, m);
    PinsFollow(s.heap, s'.heap, s.cur, Top(s.frames), s.sessions, i, m);
    CountsFollow(s.heap, s'.heap, s.sessions, i, m);
    DropKeepsFrees(s, i);
  }

  /** What remains of the heap, the counts and the decisions after `x` is freed. */
  lemma FreeKeeps(s: State, t: int, x: Addr, hup': HupPc, sessions': seq<Session>)
    requires Inv(s) && WillFree(s.heap, Top(s.frames), s.sessions, t, x)
    requires forall a :: Unpublished(hup', a) <==> Unpublished(Top(s.frames), a)
    requires forall u, a :: WillFree(s.heap - {x}, hup', sessions', u, a) <==>
                            u != t && WillFree(s.heap, Top(s.frames), s.sessions, u, a)
    requires forall a :: WillFree(s.heap, Top(s.frames), s.sessions, t, a) ==> a == x
    requires hup'.Marked? <==> Top(s.frames).Marked?
    ensures FlagInv(s.heap - {x}, s.cur, hup')
    ensures FreeInv(s.heap - {x}, s.cur, hup', sessions')
  {
    var heap' := s.heap - {x};
    forall a ensures Retired(heap', s.cur, hup', a) <==> Retired(s.heap, s.cur, Top(s.frames), a) && a != x {
    }
    forall u, a | WillFree(heap', hup', sessions', u, a)
      ensures Retired(heap', s.cur, hup', a) && heap'[a].refcount == 0
    {
      assert WillFree(s.heap, Top(s.frames), s.sessions, t, x);
      assert a != x;
    }
    forall a | Retired(heap', s.cur, hup', a) && heap'[a].refcount == 0 ensures Doomed(heap', hup', sessions', a) {
      assert Doomed(s.heap, Top(s.frames), s.sessions, a);
      var u :| WillFree(s.heap, Top(s.frames), s.sessions, u, a);
      assert WillFree(heap', hup', sessions', u, a);
    }
  }

  lemma FinishDecides(s: State, i: nat)
    requires Inv(s) && CanAct(s, i, Finish) && s.sessions[i].pc.free
    ensures var s' := DoAct(s, i, Finish);
            forall u, a :: WillFree(s'.heap, Top(s.frames), s'.sessions, u, a) <==>
                           u != i && WillFree(s.heap, Top(s.frames), s.sessions, u, a)
  {
    var s' := DoAct(s, i, Finish);
    var hup := Top(s.frames);
    var x := s.sessions[i].config;
    assert WillFree(s.heap, hup, s.sessions, i, x);
    forall u, a ensures WillFree(s'.heap, hup, s'.sessions, u, a) <==>
                        u != i && WillFree(s.heap, hup, s.sessions, u, a) {
      if u != i && a == x {
        assert !WillFree(s.heap, hup, s.sessions, u, x);
      }
    }
  }

  lemma FinishFreesPins(s: State, i: nat)
    requires Inv(s) && CanAct(s, i, Finish) && s.sessions[i].pc.free
    ensures var s' := DoAct(s, i, Finish); var hup := Top(s.frames);
            HupInv(s'.heap, s.cur, hup) && PinInv(s'.heap, s.cur, hup, s'.sessions)
  {
    var s' := DoAct(s, i, Finish);
    var hup := Top(s.frames);
    assert WillFree(s.heap, hup, s.sessions, i, s.sessions[i].config);
    FreedIsUnused(s, i, s.sessions[i].config);
    PinsFollow(s.heap, s'.heap, s.cur, hup, s.sessions, i, s'.sessions[i]);
  }

  lemma FinishFreesCounts(s: State, i: nat)
    requires Inv(s) && CanAct(s, i, Finish) && s.sessions[i].pc.free
    ensures var s' := DoAct(s, i, Finish); CountInv(s'.heap, s'.sessions)
  {
    CountsFollow(s.heap, s.heap - {s.sessions[i].config}, s.sessions, i, s.sessions[i].(pc := Dead));
  }

  lemma FinishFrees(s: State, i: nat)
    requires Inv(s) && CanAct(s, i, Finish) && s.sessions[i].pc.free
    ensures Inv(DoAct(s, i, Finish))
  {
    var s' := DoAct(s, i, Finish);
    var m := s'.sessions[i];
    var hup := Top(s.frames);
    assert WillFree(s.heap, hup, s.sessions, i, s.sessions[i].config);
    KeepsSockets(s.table, s.conns, s.sessions, i, m);
    LockFollows(s.lock, s.lock, hup, s.sessions, i, m);
    FinishFreesPins(s, i);
    FinishFreesCounts(s, i);
    FinishDecides(s, i);
    FreeKeeps(s, i, s.sessions[i].config, hup, s'.sessions);
  }

  lemma FinishKeeps(s: State, i: nat)
    requires Inv(s) && CanAct(s, i, Finish)
    ensures Inv(DoAct(s, i, Finish))
  {
    if s.sessions[i].pc.free {
      FinishFrees(s, i);
    } else {
      var m := DoAct(s, i, Finish).sessions[i];
      LockFollows(s.lock, s.lock, Top(s.frames), s.sessions, i, m);
      StoreStepKeeps(s, i, m, s.lock);
    }
  }

  lemma ActKeeps(s: State, i: nat, act: SessionAct)
    requires Inv(s) && CanAct(s, i, act)
    ensures Inv(DoAct(s, i, act))
  {
    match act
    case Lock => LockKeeps(s, i);
    case Load => LoadKeeps(s, i);
    case Count => CountKeeps(s, i);
    case Unlock => UnlockKeeps(s, i);
    case ReadConfig => ReadConfigKeeps(s, i);
    case Socket(fd) => SocketOpenKeeps(s, i, fd);
    case Established => EstablishedKeeps(s, i);
    case ConnectFailed => HangUpKeeps(s, i, s.sessions[i].(pc := Idle, socket := -1));
    case Write(bytes) => WriteKeeps(s, i, bytes);
    case Receive => ReceiveKeeps(s, i);
    case AbortClose => HangUpKeeps(s, i, s.sessions[i].(pc := Aborting));
    case AbortClear => AbortClearKeeps(s, i);
    case CloseSocket => HangUpKeeps(s, i, s.sessions[i].(pc := Release));
    case Drop => DropKeeps(s, i);
    case Test => TestKeeps(s, i);
    case Finish => FinishKeeps(s, i);
  }

  // ---------------------------------------------------------------- reload_config

  lemma TopMoves(frames: seq<Frame>, blocked: bool, pc: HupPc)
    requires frames != [] && StackInv(frames, blocked) && !Top(frames).Tail? && !pc.Tail?
    ensures var frames' := frames[|frames| - 1 := frames[|frames| - 1].(pc := pc)];
            Top(frames') == pc && StackInv(frames', blocked)
  {
  }

  /** A step of the reload thread that changes neither the heap nor who frees what. */
  lemma HupMoves(s: State, pc: HupPc, lock: Owner)
    requires Inv(s) && s.frames != [] && !Top(s.frames).Tail? && !pc.Tail?
    requires LockInv(lock, pc, s.sessions) && HupInv(s.heap, s.cur, pc)
    requires forall a :: Unpublished(pc, a) <==> Unpublished(Top(s.frames), a)
    requires forall a :: HupFrees(s.heap, pc, a) <==> HupFrees(s.heap, Top(s.frames), a)
    requires !pc.Marked? && !Top(s.frames).Marked?
    ensures Inv(HupGoto(s, pc).(lock := lock))
  {
    TopMoves(s.frames, s.blocked, pc);
    FreesTransfer(s.heap, s.cur, Top(s.frames), s.sessions, s.heap, s.cur, pc, s.sessions);
  }

  lemma LoadOkKeeps(s: State, a: Addr, data: ConfigData)
    requires Inv(s) && CanHup(s, LoadOk(a, data))
    ensures Inv(DoHup(s, LoadOk(a, data)))
  {
    var s' := DoHup(s, LoadOk(a, data));
    TopMoves(s.frames, s.blocked, Loaded(a));
    assert HolderCount(s.sessions, a) == 0 by {
      assert Holders(s.sessions, a) == {};
    }
    forall t, b ensures WillFree(s'.heap, Loaded(a), s.sessions, t, b) <==>
                        WillFree(s.heap, Top(s.frames), s.sessions, t, b) {
      if b == a {
        assert !Retired(s.heap, s.cur, Top(s.frames), a);
        assert !WillFree(s.heap, Top(s.frames), s.sessions, t, b);
      }
    }
    FreesTransfer(s.heap, s.cur, Top(s.frames), s.sessions, s'.heap, s.cur, Loaded(a), s.sessions);
  }

  lemma MarkOldKeeps(s: State)
    requires Inv(s) && CanHup(s, MarkOld)
    ensures Inv(DoHup(s, MarkOld))
  {
    var s' := DoHup(s, MarkOld);
    var pc := Marked(Top(s.frames).made, Top(s.frames).prior);
    TopMoves(s.frames, s.blocked, pc);
    FreesTransfer(s.heap, s.cur, Top(s.frames), s.sessions, s'.heap, s.cur, pc, s.sessions);
  }

  /** Publishing the new set retires the old one, and decides about it when nobody holds it. */
  lemma SwapKeepsFrees(s: State)
    requires Inv(s) && CanHup(s, Swap)
    ensures FreeInv(s.heap, Top(s.frames).made, Swapped(s.cur), s.sessions)
  {
    var hup := Top(s.frames);
    var hup' := Swapped(s.cur);
    forall t ensures !WillFree(s.heap, hup, s.sessions, t, s.cur) {
      assert !Retired(s.heap, s.cur, hup, s.cur);
    }
    forall t, a ensures WillFree(s.heap, hup', s.sessions, t, a) <==>
                        if t == -1 then a == s.cur && s.heap[a].refcount == 0
                        else WillFree(s.heap, hup, s.sessions, t, a) {
    }
    forall a | Retired(s.heap, hup.made, hup', a) && s.heap[a].refcount == 0
      ensures Doomed(s.heap, hup', s.sessions, a)
    {
      if a == s.cur {
        assert WillFree(s.heap, hup', s.sessions, -1, a);
      } else {
        assert Doomed(s.heap, hup, s.sessions, a);
        var t :| WillFree(s.heap, hup, s.sessions, t, a);
        assert WillFree(s.heap, hup', s.sessions, t, a);
      }
    }
    forall t, u, a | WillFree(s.heap, hup', s.sessions, t, a) && WillFree(s.heap, hup', s.sessions, u, a)
      ensures t == u
    {
      if a == s.cur {
        assert !WillFree(s.heap, hup, s.sessions, t, a) && !WillFree(s.heap, hup, s.sessions, u, a);
      }
    }
  }

  lemma SwapKeeps(s: State)
    requires Inv(s) && CanHup(s, Swap)
    ensures Inv(DoHup(s, Swap))
  {
    TopMoves(s.frames, s.blocked, Swapped(Top(s.frames).prior));
    SwapKeepsFrees(s);
  }

  lemma FreeOldDecides(s: State)
    requires Inv(s) && CanHup(s, FreeOld) && Top(s.frames).free
    ensures forall u, a :: WillFree(s.heap - {Top(s.frames).prior}, Reloaded, s.sessions, u, a) <==>
                           u != -1 && WillFree(s.heap, Top(s.frames), s.sessions, u, a)
  {
    var hup := Top(s.frames);
    var x := hup.prior;
    assert WillFree(s.heap, hup, s.sessions, -1, x);
    forall u, a ensures WillFree(s.heap - {x}, Reloaded, s.sessions, u, a) <==>
                        u != -1 && WillFree(s.heap, hup, s.sessions, u, a) {
      if u != -1 && a == x {
        assert !WillFree(s.heap, hup, s.sessions, u, x);
      }
    }
  }

  lemma FreeOldKeeps(s: State)
    requires Inv(s) && CanHup(s, FreeOld) && Top(s.frames).free
    ensures Inv(DoHup(s, FreeOld))
  {
    var x := Top(s.frames).prior;
    assert WillFree(s.heap, Top(s.frames), s.sessions, -1, x);
    FreedIsUnused(s, -1, x);
    TopMoves(s.frames, s.blocked, Reloaded);
    FreeOldDecides(s);
    FreeKeeps(s, -1, x, Reloaded, s.sessions);
  }

  // ---------------------------------------------------------------- do_hup

  lemma UnblockKeeps(s: State)
    requires Inv(s) && CanHup(s, Unblock)
    ensures Inv(DoHup(s, Unblock))
  {
    FreesTransfer(s.heap, s.cur, Top(s.frames), s.sessions, s.heap, s.cur, Tail, s.sessions);
  }

  lemma ReturnKeeps(s: State)
    requires Inv(s) && CanHup(s, Return)
    ensures Inv(DoHup(s, Return))
  {
    var frames' := s.frames[..|s.frames| - 1];
    assert Top(frames') == Tail;
  }

  lemma DeliverKeeps(s: State)
    requires Inv(s) && Enabled(s, Deliver)
    ensures Inv(Apply(s, Deliver))
  {
    var frames' := Apply(s, Deliver).frames;
    assert Top(s.frames) == Tail && Top(frames') == Entered;
    forall k | 0 <= k < |frames'| - 1 ensures frames'[k].pc == Tail {
      assert frames'[k] == s.frames[k];
    }
    FreesTransfer(s.heap, s.cur, Tail, s.sessions, s.heap, s.cur, Entered, s.sessions);
  }

  lemma HupPreparesKeeps(s: State, act: HupAct)
    requires Inv(s) && CanHup(s, act)
    requires act.Block? || act.LoadFails? || act.HupLock? || act.TakeOld?
    ensures Inv(DoHup(s, act))
  {
    var pc := Top(s.frames);
    match act
    case Block => HupMoves(s, Loading, s.lock);
    case LoadFails => HupMoves(s, Reloaded, s.lock);
    case HupLock => HupMoves(s, Held(pc.made), ByHup);
    case TakeOld => HupMoves(s, HasOld(pc.made, s.cur), s.lock);
  }

  lemma HupDecidesKeeps(s: State, act: HupAct)
    requires Inv(s) && CanHup(s, act)
    requires act.TestOld? || act.HupUnlock?
    ensures Inv(DoHup(s, act))
  {
    var pc := Top(s.frames);
    match act
    case TestOld => HupMoves(s, Tested(pc.prior, s.heap[pc.prior].refcount == 0), s.lock);
    case HupUnlock => HupMoves(s, Unlocked(pc.prior, pc.free), Nobody);
  }

  lemma HupFinishesKeeps(s: State, act: HupAct)
    requires Inv(s) && CanHup(s, act)
    requires act.SwitchLog? || act.ChangeLog? || act.FreeOld?
    ensures Inv(DoHup(s, act))
  {
    var pc := Top(s.frames);
    match act
    case SwitchLog => HupMoves(s, Relogged(pc.prior, pc.free), s.lock);
    case ChangeLog => HupMoves(s, MayFree(pc.prior, pc.free), s.lock);
    case FreeOld => if pc.free { FreeOldKeeps(s); } else { HupMoves(s, Reloaded, s.lock); }
  }

  lemma HupKeeps(s: State, act: HupAct)
    requires Inv(s) && CanHup(s, act)
    ensures Inv(DoHup(s, act))
  {
    match act
    case LoadOk(a, data) => LoadOkKeeps(s, a, data);
    case MarkOld => MarkOldKeeps(s);
    case Swap => SwapKeeps(s);
    case TestOld => HupDecidesKeeps(s, act);
    case HupUnlock => HupDecidesKeeps(s, act);
    case SwitchLog => HupFinishesKeeps(s, act);
    case ChangeLog => HupFinishesKeeps(s, act);
    case FreeOld => HupFinishesKeeps(s, act);
    case Unblock => UnblockKeeps(s);
    case Return => ReturnKeeps(s);
    case _ => HupPreparesKeeps(s, act);
  }

  // ---------------------------------------------------------------- every step, every run

  lemma SpawnKeepsStore(heap: Heap, cur: Addr, lock: Owner, hup: HupPc, sessions: seq<Session>, m: Session)
    requires ConfigInv(heap, cur, lock, hup, sessions) && m.pc.Connect?
    ensures ConfigInv(heap, cur, lock, hup, sessions + [m])
  {
    forall a ensures HolderCount(sessions + [m], a) == HolderCount(sessions, a) {
      HolderCountAppend(sessions, m, a);
    }
    FreesTransfer(heap, cur, hup, sessions, heap, cur, hup, sessions + [m]);
  }

  lemma SpawnKeeps(s: State)
    requires Inv(s)
    ensures Inv(Apply(s, Spawn))
  {
    SpawnKeepsStore(s.heap, s.cur, s.lock, Top(s.frames), s.sessions, Session(Connect, 0, -1, -1));
  }

  lemma StepKeeps(s: State, l: Label)
    requires Inv(s) && Enabled(s, l)
    ensures Inv(Apply(s, l))
  {
    match l
    case Spawn => SpawnKeeps(s);
    case Act(i, act) => ActKeeps(s, i, act);
    case Signal =>
    case Deliver => DeliverKeeps(s);
    case Hup(act) => HupKeeps(s, act);
  }

  /** Every state of every interleaving satisfies the invariant, and no step of it was a fault. */
  lemma {:induction false} RunKeeps(s: State, run: seq<Label>)
    requires Inv(s) && Possible(s, run)
    ensures Inv(Exec(s, run))
    decreases |run|
  {
    if run != [] {
      StepKeeps(s, run[0]);
      RunKeeps(Apply(s, run[0]), run[1..]);
    }
  }
}
