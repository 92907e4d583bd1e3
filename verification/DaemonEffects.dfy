/** What a single step can change at all, whatever the state it starts from. */
module DaemonEffects {
  import opened Daemon

  /** The label is thread `t` freeing what it decided to free. */
  predicate FreesNow(s: State, l: Label, t: int, a: Addr) {
    if t == -1 then l == Hup(FreeOld) && Top(s.frames).MayFree? && Top(s.frames).prior == a && Top(s.frames).free
    else 0 <= t < |s.sessions| && l == Act(t, Finish) &&
         s.sessions[t].pc == RelOut(true) && s.sessions[t].config == a
  }

  /** The label is session `i` raising the count of `a`. */
  predicate Raises(s: State, l: Label, a: Addr) {
    l.Act? && l.act.Count? && l.i < |s.sessions| && s.sessions[l.i].config == a
  }

  /** The configuration sets a step reads, writes or frees. */
  function Follows(s: State, l: Label): set<Addr>
    requires Enabled(s, l)
  {
    match l
    case Act(i, act) =>
      var me := s.sessions[i];
      if act.Count? || act.Drop? || act.Test? || act.ReadConfig? || (act.Finish? && me.pc.free) then {me.config} else {}
    case Hup(act) =>
      var pc := Top(s.frames);
      if act.MarkOld? || act.TestOld? || (act.FreeOld? && pc.free) then {pc.prior}
      else if act.SwitchLog? || act.ChangeLog? then {s.cur}
      else {}
    case _ => {}
  }

  /** The descriptor a session's step reads, writes or closes, or -1. */
  function UsesFd(s: State, i: nat, act: SessionAct): int
    requires CanAct(s, i, act)
  {
    if act.Established? || act.ConnectFailed? then s.sessions[i].newSocket
    else if act.Write? || act.Receive? || act.AbortClose? || act.CloseSocket? then s.sessions[i].socket
    else -1
  }

  /** The fault record misses no bad access to a configuration set. */
  lemma BadAccessIsFault(s: State, l: Label, a: Addr)
    requires Enabled(s, l) && a in Follows(s, l) && a !in s.heap
    ensures UseAfterFree in Apply(s, l).faults || BadFree in Apply(s, l).faults
  {
    match l
    case Act(i, act) =>
    case Hup(act) =>
  }

  lemma ActHeapEffect(s: State, i: nat, act: SessionAct, a: Addr)
    requires CanAct(s, i, act) && a in s.heap
    ensures var s' := DoAct(s, i, act);
            if a in s'.heap then
              && s'.heap[a].data == s.heap[a].data
              && s'.heap[a].delflg == s.heap[a].delflg
              && (s'.heap[a].refcount <= s.heap[a].refcount || Raises(s, Act(i, act), a))
            else FreesNow(s, Act(i, act), i, a)
  {
  }

  lemma HupHeapEffect(s: State, act: HupAct, a: Addr)
    requires CanHup(s, act) && a in s.heap
    ensures var s' := DoHup(s, act);
            if a in s'.heap then
              && s'.heap[a].data == s.heap[a].data
              && (s.heap[a].delflg ==> s'.heap[a].delflg)
              && s'.heap[a].refcount == s.heap[a].refcount
            else FreesNow(s, Hup(act), -1, a)
  {
  }

  /** A set keeps its data until it is freed; only Count raises a count, and no step clears a flag. */
  lemma HeapEffect(s: State, l: Label, a: Addr)
    requires Enabled(s, l) && a in s.heap
    ensures var s' := Apply(s, l);
            if a in s'.heap then
              && s'.heap[a].data == s.heap[a].data
              && (s.heap[a].delflg ==> s'.heap[a].delflg)
              && (s'.heap[a].refcount <= s.heap[a].refcount || Raises(s, l, a))
            else FreesNow(s, l, if l.Act? then l.i else -1, a)
  {
    match l
    case Act(i, act) => ActHeapEffect(s, i, act, a);
    case Hup(act) => HupHeapEffect(s, act, a);
    case _ =>
  }

  /** A session's step touches its own fields, and of the connections only its own, or it is a fault. */
  lemma ActEffect(s: State, i: nat, act: SessionAct)
    requires CanAct(s, i, act)
    ensures var s' := DoAct(s, i, act);
            && s'.sessions == s.sessions[i := Next(s, i, act)]
            && s'.frames == s.frames
            && s'.cur == s.cur
  {
  }

  lemma ActConnEffect(s: State, i: nat, act: SessionAct, c: nat)
    requires CanAct(s, i, act) && c < |s.conns|
    ensures var s' := DoAct(s, i, act);
            && |s'.conns| >= |s.conns|
            && (s'.conns[c] == s.conns[c] || s.conns[c].owner == i || ForeignSocket in s'.faults)
  {
  }

  lemma HupEffect(s: State, act: HupAct)
    requires CanHup(s, act)
    ensures var s' := DoHup(s, act); s'.sessions == s.sessions && s'.conns == s.conns
  {
  }

  /** A step of someone else leaves a session and its connections alone, or it is a fault. */
  lemma OthersLeaveConns(s: State, l: Label, i: nat)
    requires Enabled(s, l) && i < |s.sessions| && (l.Act? ==> l.i != i)
    requires Apply(s, l).faults == {}
    ensures var s' := Apply(s, l);
            && i < |s'.sessions| && s'.sessions[i] == s.sessions[i]
            && |s'.conns| >= |s.conns|
            && (forall c :: 0 <= c < |s.conns| && s.conns[c].owner == i ==> s'.conns[c] == s.conns[c])
  {
    match l
    case Act(j, act) =>
      ActEffect(s, j, act);
      forall c | 0 <= c < |s.conns| && s.conns[c].owner == i
        ensures c < |DoAct(s, j, act).conns| && DoAct(s, j, act).conns[c] == s.conns[c]
      {
        ActConnEffect(s, j, act, c);
      }
      if |s.conns| > 0 { ActConnEffect(s, j, act, 0); }
    case Hup(act) => HupEffect(s, act);
    case _ =>
  }
}
