/** What the invariant means for every interleaving of sessions, reloads and signals. */
module DaemonTheorems {
  import opened Daemon
  import opened DaemonInvariant
  import opened DaemonEffects

  /** `s` is where some interleaving leads that starts right after start-up with set `data` at `a`. */
  ghost predicate Reaches(a: Addr, data: ConfigData, run: seq<Label>, s: State) {
    Possible(Init(a, data), run) && Exec(Init(a, data), run) == s
  }

  ghost predicate Reachable(s: State) {
    exists a, data, run :: Reaches(a, data, run, s)
  }

  lemma ReachableInv(s: State)
    requires Reachable(s)
    ensures Inv(s)
  {
    var a, data, run :| Reaches(a, data, run, s);
    InitInv(a, data);
    RunKeeps(Init(a, data), run);
  }

  // ---------------------------------------------------------------- memory safety

  /**
   No interleaving ever uses a configuration set outside its life, frees one
   twice, touches another session's socket or closes a descriptor that is not
   open; and every pointer that can still be followed leads to a live set.
   */
  lemma MemorySafe(s: State)
    requires Reachable(s)
    ensures s.faults == {}
    ensures s.cur in s.heap
    ensures forall i :: 0 <= i < |s.sessions| && Pins(s.sessions[i].pc) ==> s.sessions[i].config in s.heap
  {
    ReachableInv(s);
  }

  /**
   The same, step by step: whatever step any thread takes next, the configuration
   sets it reads, writes or frees are there, and the descriptor it uses, if any, is
   open and its own.
   */
  lemma EveryAccessIsSafe(s: State, l: Label)
    requires Reachable(s) && Enabled(s, l)
    ensures Follows(s, l) <= s.heap.Keys
    ensures l.Act? && UsesFd(s, l.i, l.act) != -1 ==>
              var fd := UsesFd(s, l.i, l.act);
              fd in s.table && OwnsConn(s, l.i, fd, s.table[fd])
  {
    ReachableInv(s);
    FollowsLive(s, l);
    if l.Act? {
      UsesOwn(s, l.i, l.act);
    }
  }

  lemma FollowsLive(s: State, l: Label)
    requires Inv(s) && Enabled(s, l)
    ensures Follows(s, l) <= s.heap.Keys
  {
    StepKeeps(s, l);
    forall a | a in Follows(s, l) ensures a in s.heap {
      if a !in s.heap {
        BadAccessIsFault(s, l, a);
        assert false;
      }
    }
  }

  lemma UsesOwn(s: State, i: nat, act: SessionAct)
    requires SocketInv(s.table, s.conns, s.sessions) && CanAct(s, i, act)
    ensures var fd := UsesFd(s, i, act); fd != -1 ==> fd in s.table && OwnsConn(s, i, fd, s.table[fd])
  {
    assert UsesFd(s, i, act) == -1 || UsesFd(s, i, act) == OwnedFd(s.sessions[i]);
  }

  /**
   A set leaves the heap only retired and unused: it is not current, no session
   holds it, and no other thread is going to free it as well.
   */
  lemma FreedOnlyUnused(s: State, l: Label, a: Addr)
    requires Reachable(s) && Enabled(s, l)
    requires a in s.heap && a !in Apply(s, l).heap
    ensures a != s.cur && s.heap[a].delflg && s.heap[a].refcount == 0
    ensures Holders(s.sessions, a) == {}
    ensures forall t :: WillFree(s.heap, Top(s.frames), s.sessions, t, a) ==>
              l == if t == -1 then Hup(FreeOld) else Act(t, Finish)
  {
    ReachableInv(s);
    HeapEffect(s, l, a);
    var t := if l.Act? then l.i else -1;
    assert WillFree(s.heap, Top(s.frames), s.sessions, t, a);
    FreedIsUnused(s, t, a);
  }

  // ---------------------------------------------------------------- counting

  /**
   The reference count is exact at every moment; the delete flag is, whenever the
   mutex is free, exactly "published once and no longer current".
   */
  lemma CountsAreExact(s: State, a: Addr)
    requires Reachable(s) && a in s.heap
    ensures s.heap[a].refcount == |Holders(s.sessions, a)|
    ensures s.lock.Nobody? ==> (s.heap[a].delflg <==> a != s.cur && !Unpublished(Top(s.frames), a))
  {
    ReachableInv(s);
  }

  /** A retired set stays retired until it is freed, and its count never rises again. */
  lemma RetiredOnlyFalls(s: State, l: Label, a: Addr)
    requires Reachable(s) && Enabled(s, l) && Retired(s.heap, s.cur, Top(s.frames), a)
    ensures var s' := Apply(s, l);
            a in s'.heap ==>
              && Retired(s'.heap, s'.cur, Top(s'.frames), a)
              && s'.heap[a].delflg
              && s'.heap[a].refcount <= s.heap[a].refcount
              && s'.heap[a].data == s.heap[a].data
  {
    ReachableInv(s);
    HeapEffect(s, l, a);
    StaysRetired(s, l, a);
  }

  lemma StaysRetired(s: State, l: Label, a: Addr)
    requires Inv(s)
    requires Enabled(s, l) && Retired(s.heap, s.cur, Top(s.frames), a)
    ensures var s' := Apply(s, l); a in s'.heap ==> Retired(s'.heap, s'.cur, Top(s'.frames), a)
  {
    match l
    case Act(i, act) => ActEffect(s, i, act);
    case Hup(act) => HupTop(s, act, a); HupCur(s, act);
    case _ =>
  }

  /** Only a successful load makes an address unpublished that was not, and only one that was free. */
  lemma HupTop(s: State, act: HupAct, a: Addr)
    requires CanHup(s, act) && a in s.heap && !Unpublished(Top(s.frames), a)
    requires forall k :: 0 <= k < |s.frames| - 1 ==> s.frames[k].pc == Tail
    ensures !Unpublished(Top(DoHup(s, act).frames), a)
  {
  }

  lemma HupCur(s: State, act: HupAct)
    requires CanHup(s, act)
    ensures DoHup(s, act).cur == s.cur || Unpublished(Top(s.frames), DoHup(s, act).cur)
  {
  }

  // ---------------------------------------------------------------- reclamation

  /** Every retired set is held, or waits to be freed by exactly one thread. */
  lemma HeldOrDoomed(s: State, a: Addr)
    requires Reachable(s) && Retired(s.heap, s.cur, Top(s.frames), a)
    ensures if s.heap[a].refcount > 0
            then forall t :: !WillFree(s.heap, Top(s.frames), s.sessions, t, a)
            else exists t :: WillFree(s.heap, Top(s.frames), s.sessions, t, a) &&
                   forall u :: WillFree(s.heap, Top(s.frames), s.sessions, u, a) ==> u == t
  {
    ReachableInv(s);
    assert s.heap[a].refcount == |Holders(s.sessions, a)|;
    if s.heap[a].refcount == 0 {
      assert Doomed(s.heap, Top(s.frames), s.sessions, a);
    }
  }

  lemma HupStillFrees(s: State, l: Label, a: Addr)
    requires Inv(s) && Enabled(s, l) && HupFrees(s.heap, Top(s.frames), a)
    requires a in s.heap && a in Apply(s, l).heap && Apply(s, l).heap[a].refcount == 0 == s.heap[a].refcount
    ensures var s' := Apply(s, l); HupFrees(s'.heap, Top(s'.frames), a)
  {
    match l
    case Act(i, act) => ActEffect(s, i, act);
    case Hup(act) =>
    case _ =>
  }

  lemma SessionStillFrees(s: State, l: Label, t: nat, a: Addr)
    requires Inv(s) && Enabled(s, l) && t < |s.sessions| && SessionFrees(s.heap, s.sessions[t], a)
    requires a in s.heap && a in Apply(s, l).heap && Apply(s, l).heap[a].refcount == 0 == s.heap[a].refcount
    requires s.heap[a].delflg ==> Apply(s, l).heap[a].delflg
    ensures var s' := Apply(s, l); t < |s'.sessions| && SessionFrees(s'.heap, s'.sessions[t], a)
  {
    match l
    case Act(i, act) => if i != t { ActEffect(s, i, act); }
    case Hup(act) => HupEffect(s, act);
    case _ =>
  }

  /** A thread that is to free a set does so, or still is to after any step of anyone. */
  lemma DoomedUntilFreed(s: State, l: Label, t: int, a: Addr)
    requires Reachable(s) && Enabled(s, l) && WillFree(s.heap, Top(s.frames), s.sessions, t, a)
    ensures var s' := Apply(s, l);
            || WillFree(s'.heap, Top(s'.frames), s'.sessions, t, a)
            || (a !in s'.heap && FreesNow(s, l, t, a))
  {
    ReachableInv(s);
    var s' := Apply(s, l);
    assert Retired(s.heap, s.cur, Top(s.frames), a) && s.heap[a].refcount == 0;
    HeapEffect(s, l, a);
    if a !in s'.heap {
      var u := if l.Act? then l.i else -1;
      assert WillFree(s.heap, Top(s.frames), s.sessions, u, a);
    } else {
      StepKeeps(s, l);
      RetiredOnlyFalls(s, l, a);
      assert s'.heap[a].refcount == HolderCount(s'.sessions, a);
      if t == -1 {
        HupStillFrees(s, l, a);
      } else {
        SessionStillFrees(s, l, t, a);
      }
    }
  }

  /**
   Once every session has ended, and the reload thread has nothing to free and nothing
   to publish, only the current set is left.
   */
  lemma OnlyCurrentRemains(s: State)
    requires Reachable(s)
    requires forall i :: 0 <= i < |s.sessions| ==> s.sessions[i].pc.Dead?
    requires forall a :: !HupFrees(s.heap, Top(s.frames), a) && !Unpublished(Top(s.frames), a)
    ensures s.heap.Keys == {s.cur}
  {
    ReachableInv(s);
    forall a | a in s.heap ensures a == s.cur {
      assert Holders(s.sessions, a) == {};
      assert s.heap[a].refcount == HolderCount(s.sessions, a) == 0;
      assert a == s.cur || Doomed(s.heap, Top(s.frames), s.sessions, a);
    }
  }

  // ---------------------------------------------------------------- signals

  predicate InReload(pc: HupPc) {
    !pc.Entered? && !pc.Reloaded? && !pc.Tail?
  }

  /**
   However the SIGHUPs arrive and however deep the handler is nested, at most one
   activation is inside reload_config, and every interrupted one has passed its unblock.
   */
  lemma OneReloadAtATime(s: State)
    requires Reachable(s)
    ensures forall k :: 0 <= k < |s.frames| - 1 ==> s.frames[k].pc.Tail?
    ensures forall j, k ::
              0 <= j < |s.frames| && 0 <= k < |s.frames| && InReload(s.frames[j].pc) && InReload(s.frames[k].pc)
              ==> j == k
    ensures |s.frames| > 0 && !Top(s.frames).Tail? ==> s.blocked
  {
    ReachableInv(s);
  }

  // ---------------------------------------------------------------- descriptors

  /** Connection `c` is open and session `i` is the one that owns it, under descriptor `fd`. */
  predicate OwnsConn(s: State, i: nat, fd: int, c: nat) {
    && i < |s.sessions| && OwnedFd(s.sessions[i]) == fd != -1
    && fd in s.table && s.table[fd] == c < |s.conns| && s.conns[c].owner == i
  }

  /**
   Descriptors, owning sessions and open connections correspond one to one, although
   the kernel may hand a closed number to another session at once.
   */
  lemma SocketsOneToOne(s: State)
    requires Reachable(s)
    ensures forall fd :: fd in s.table ==>
              s.table[fd] < |s.conns| && OwnsConn(s, s.conns[s.table[fd]].owner, fd, s.table[fd])
    ensures forall i :: 0 <= i < |s.sessions| && OwnedFd(s.sessions[i]) != -1 ==>
              OwnedFd(s.sessions[i]) in s.table &&
              OwnsConn(s, i, OwnedFd(s.sessions[i]), s.table[OwnedFd(s.sessions[i])])
    ensures forall c :: 0 <= c < |s.conns| && s.conns[c].closes == 0 ==>
              OwnsConn(s, s.conns[c].owner, s.conns[c].fd, c)
    ensures forall fd, fd' :: fd in s.table && fd' in s.table && s.table[fd] == s.table[fd'] ==> fd == fd'
  {
    ReachableInv(s);
  }

  /** Every connection is closed at most once, and exactly once when its session has ended. */
  lemma ClosedExactlyOnce(s: State, c: nat)
    requires Reachable(s) && c < |s.conns|
    ensures s.conns[c].owner < |s.sessions|
    ensures s.conns[c].closes <= 1
    ensures s.sessions[s.conns[c].owner].pc.Dead? ==> s.conns[c].closes == 1
  {
    ReachableInv(s);
  }

  // ---------------------------------------------------------------- isolation

  /** The label is not a step of session `i`. */
  predicate NotBy(l: Label, i: nat) {
    !l.Act? || l.i != i
  }

  /** Session `i` keeps its own data, the contents it holds, and every connection it ever opened. */
  ghost predicate SameFor(s: State, s': State, i: nat) {
    && i < |s.sessions| && i < |s'.sessions| && s'.sessions[i] == s.sessions[i]
    && (Pins(s.sessions[i].pc) ==>
          && s.sessions[i].config in s.heap && s.sessions[i].config in s'.heap
          && s'.heap[s.sessions[i].config].data == s.heap[s.sessions[i].config].data)
    && |s'.conns| >= |s.conns|
    && (forall c :: 0 <= c < |s.conns| && s.conns[c].owner == i ==> s'.conns[c] == s.conns[c])
  }

  lemma OthersStep(s: State, l: Label, i: nat)
    requires Inv(s) && Enabled(s, l) && i < |s.sessions| && NotBy(l, i)
    ensures SameFor(s, Apply(s, l), i)
  {
    StepKeeps(s, l);
    OthersLeaveConns(s, l, i);
    if Pins(s.sessions[i].pc) {
      HeapEffect(s, l, s.sessions[i].config);
    }
  }

  lemma {:induction false} OthersRun(s: State, run: seq<Label>, i: nat)
    requires Inv(s) && Possible(s, run) && i < |s.sessions|
    requires forall k :: 0 <= k < |run| ==> NotBy(run[k], i)
    ensures SameFor(s, Exec(s, run), i)
    decreases |run|
  {
    if run == [] {
      assert Pins(s.sessions[i].pc) ==> s.sessions[i].config in s.heap;
    } else {
      OthersStep(s, run[0], i);
      StepKeeps(s, run[0]);
      assert forall k :: 0 <= k < |run| - 1 ==> run[1..][k] == run[k + 1];
      OthersRun(Apply(s, run[0]), run[1..], i);
    }
  }

  /**
   Whatever anyone else does, for as long as they like, a session keeps its own
   data, the contents of the configuration it holds, and every connection it ever
   opened: between its own steps, the daemon stands still for it.
   */
  lemma OthersDoNotInterfere(s: State, run: seq<Label>, i: nat)
    requires Reachable(s) && Possible(s, run) && i < |s.sessions|
    requires forall k :: 0 <= k < |run| ==> NotBy(run[k], i)
    ensures SameFor(s, Exec(s, run), i)
  {
    ReachableInv(s);
    OthersRun(s, run, i);
  }
}
