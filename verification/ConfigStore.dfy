/**
 The configuration calls of src/config.c as they run without interference, each
 tied to the steps the same call takes in the interleaved daemon.
 */
module ConfigStore {
  import opened Bytes
  import opened Daemon

  /** One more reference to the current set. */
  function Taken(heap: map<Addr, ConfigSet>, cur: Addr): map<Addr, ConfigSet>
    requires cur in heap
  {
    heap[cur := heap[cur].(refcount := heap[cur].refcount + 1)]
  }

  /** One reference less; the last reference to a retired set takes the set with it. */
  function Dropped(heap: map<Addr, ConfigSet>, a: Addr): map<Addr, ConfigSet>
    requires a in heap
  {
    var left := heap[a].refcount - 1;
    if left == 0 && heap[a].delflg then heap - {a} else heap[a := heap[a].(refcount := left)]
  }

  /** A new set at `made`; the set it replaces is marked, or gone if nobody holds it. */
  function Replaced(heap: map<Addr, ConfigSet>, cur: Addr, made: Addr, data: ConfigData): map<Addr, ConfigSet>
    requires cur in heap && made !in heap
  {
    var grown := heap[made := ConfigSet(data, 0, false)];
    if heap[cur].refcount == 0 then grown - {cur} else grown[cur := heap[cur].(delflg := true)]
  }

  /** A reference that is taken and dropped again leaves no trace, unless it was the only one to a marked set. */
  lemma DropUndoesTake(heap: map<Addr, ConfigSet>, cur: Addr)
    requires cur in heap
    ensures Dropped(Taken(heap, cur), cur) == heap <==> !(heap[cur].delflg && heap[cur].refcount == 0)
  {
    var back := Dropped(Taken(heap, cur), cur);
    if heap[cur].delflg && heap[cur].refcount == 0 {
      assert cur !in back;
    } else {
      assert back[cur] == heap[cur];
    }
  }

  class Store {
    var heap: map<Addr, ConfigSet>
    var cur: Addr

    /** The current set is there and is not marked for deletion. */
    ghost predicate Valid()
      reads this
    {
      cur in heap && !heap[cur].delflg
    }

    constructor Startup(data: ConfigData)
      ensures Valid() && cur == 0 && heap == map[0 := ConfigSet(data, 0, false)]
    {
      heap := map[0 := ConfigSet(data, 0, false)];
      cur := 0;
    }

    method GetConfig() returns (cfg: Addr)
      requires Valid()
      modifies this`heap
      ensures Valid() && cfg == cur && heap == Taken(old(heap), cur)
    {
      cfg := cur;
      heap := heap[cfg := heap[cfg].(refcount := heap[cfg].refcount + 1)];
    }

    method ReleaseConfig(cfg: Addr)
      requires Valid() && cfg in heap
      modifies this`heap
      ensures Valid() && heap == Dropped(old(heap), cfg)
    {
      var delflg := false;
      heap := heap[cfg := heap[cfg].(refcount := heap[cfg].refcount - 1)];
      if heap[cfg].refcount == 0 && heap[cfg].delflg {
        delflg := true;
      }
      if delflg {
        heap := heap - {cfg};
      }
    }

    /** `loaded` is what reading the configuration file gave, `made` where malloc put the new set. */
    method ReloadConfig(loaded: Option<ConfigData>, made: Addr) returns (r: int)
      requires Valid() && made !in heap
      modifies this
      ensures Valid()
      ensures loaded.None? ==> r == 1 && heap == old(heap) && cur == old(cur)
      ensures loaded.Some? ==> r == 0 && cur == made && heap == Replaced(old(heap), old(cur), made, loaded.value)
    {
      if loaded.None? {
        return 1;
      }
      heap := heap[made := ConfigSet(loaded.value, 0, false)];
      var delflg := false;
      var prior := cur;
      heap := heap[prior := heap[prior].(delflg := true)];
      cur := made;
      if heap[prior].refcount == 0 {
        delflg := true;
      }
      if delflg {
        heap := heap - {prior};
      }
      return 0;
    }
  }

  // ---------------------------------------------------------------- the same calls, step by step

  function GetRun(i: nat): seq<Label> {
    [Act(i, Lock), Act(i, Load)] + [Act(i, Count), Act(i, Unlock)]
  }

  function ReleaseRun(i: nat): seq<Label> {
    ([Act(i, Lock), Act(i, Drop)] + [Act(i, Test)]) + [Act(i, Unlock), Act(i, Finish)]
  }

  function ReloadRun(made: Addr, data: ConfigData): seq<Label> {
    [Hup(LoadOk(made, data)), Hup(HupLock), Hup(TakeOld)] + ([Hup(MarkOld)] + [Hup(Swap), Hup(TestOld)])
    + ([Hup(HupUnlock), Hup(SwitchLog), Hup(ChangeLog)] + [Hup(FreeOld)])
  }

  lemma ExecStep(s: State, l: Label, run: seq<Label>)
    requires Enabled(s, l) && Possible(Apply(s, l), run)
    ensures Possible(s, [l] + run) && Exec(s, [l] + run) == Exec(Apply(s, l), run)
  {
    assert ([l] + run)[1..] == run;
  }

  lemma {:induction false} ExecConcat(s: State, a: seq<Label>, b: seq<Label>)
    requires Possible(s, a) && Possible(Exec(s, a), b)
    ensures Possible(s, a + b) && Exec(s, a + b) == Exec(Exec(s, a), b)
    decreases |a|
  {
    if a == [] {
      assert a + b == b;
    } else {
      assert (a + b)[1..] == a[1..] + b;
      ExecConcat(Apply(s, a[0]), a[1..], b);
    }
  }

  /** `run` leads from `s` to `s'`. */
  predicate Leads(s: State, run: seq<Label>, s': State) {
    Possible(s, run) && Exec(s, run) == s'
  }

  lemma LeadsOn(s: State, run1: seq<Label>, s1: State, run2: seq<Label>, s2: State)
    requires Leads(s, run1, s1) && Leads(s1, run2, s2)
    ensures Leads(s, run1 + run2, s2)
  {
    ExecConcat(s, run1, run2);
  }

  /** The state `s`, but session `i` is `me`, with this heap and this owner of the mutex. */
  function Walked(s: State, i: nat, me: Session, heap: map<Addr, ConfigSet>, lock: Owner): State
    requires i < |s.sessions|
  {
    s.(sessions := s.sessions[i := me], heap := heap, lock := lock)
  }

  lemma WalkedTwice(
    s: State, i: nat, me: Session, heap: map<Addr, ConfigSet>, lock: Owner,
    me': Session, heap': map<Addr, ConfigSet>, lock': Owner)
    requires i < |s.sessions|
    ensures Walked(Walked(s, i, me, heap, lock), i, me', heap', lock') == Walked(s, i, me', heap', lock')
  {
    assert s.sessions[i := me][i := me'] == s.sessions[i := me'];
  }

  lemma TakeSteps(s: State, i: nat)
    requires i < |s.sessions| && s.sessions[i].pc.Connect? && s.lock.Nobody?
    ensures Leads(s, [Act(i, Lock), Act(i, Load)],
                  Walked(s, i, s.sessions[i].(pc := GetLoaded, config := s.cur), s.heap, BySession(i)))
  {
    var s1 := Apply(s, Act(i, Lock));
    ExecStep(s1, Act(i, Load), []);
    ExecStep(s, Act(i, Lock), [Act(i, Load)]);
  }

  lemma CountSteps(s: State, i: nat)
    requires i < |s.sessions| && s.sessions[i].pc.GetLoaded? && s.sessions[i].config in s.heap
    ensures Leads(s, [Act(i, Count), Act(i, Unlock)],
                  Walked(s, i, s.sessions[i].(pc := Idle), Taken(s.heap, s.sessions[i].config), Nobody))
  {
    var s1 := Apply(s, Act(i, Count));
    ExecStep(s1, Act(i, Unlock), []);
    ExecStep(s, Act(i, Count), [Act(i, Unlock)]);
  }

  /**
   get_config, uninterrupted, takes the steps that add one reference to the current set,
   give it to the session, and change nothing else.
   */
  lemma GetIsItsSteps(s: State, i: nat)
    requires i < |s.sessions| && s.sessions[i].pc.Connect? && s.lock.Nobody? && s.cur in s.heap
    ensures Leads(s, GetRun(i), Walked(s, i, s.sessions[i].(pc := Idle, config := s.cur), Taken(s.heap, s.cur), Nobody))
  {
    var run1, run2 := [Act(i, Lock), Act(i, Load)], [Act(i, Count), Act(i, Unlock)];
    var me := s.sessions[i].(config := s.cur);
    TakeSteps(s, i);
    CountSteps(Exec(s, run1), i);
    ExecConcat(s, run1, run2);
    WalkedTwice(s, i, me.(pc := GetLoaded), s.heap, BySession(i), me.(pc := Idle), Taken(s.heap, s.cur), Nobody);
  }

  lemma LessSteps(s: State, i: nat)
    requires i < |s.sessions| && s.sessions[i].pc.Release? && s.lock.Nobody? && s.sessions[i].config in s.heap
    ensures var run := [Act(i, Lock), Act(i, Drop)]; var a := s.sessions[i].config;
            && Possible(s, run)
            && Exec(s, run) ==
               Walked(s, i, s.sessions[i].(pc := RelDropped),
                      s.heap[a := s.heap[a].(refcount := s.heap[a].refcount - 1)], BySession(i))
  {
    var s1 := Apply(s, Act(i, Lock));
    ExecStep(s1, Act(i, Drop), []);
    ExecStep(s, Act(i, Lock), [Act(i, Drop)]);
  }

  lemma TestSteps(s: State, i: nat)
    requires i < |s.sessions| && s.sessions[i].pc.RelDropped? && s.sessions[i].config in s.heap
    ensures var run := [Act(i, Test)]; var cfg := s.heap[s.sessions[i].config];
            && Possible(s, run)
            && Exec(s, run) ==
               Walked(s, i, s.sessions[i].(pc := RelTested(cfg.refcount == 0 && cfg.delflg)), s.heap, s.lock)
  {
    ExecStep(s, Act(i, Test), []);
  }

  lemma DropSteps(s: State, i: nat)
    requires i < |s.sessions| && s.sessions[i].pc.Release? && s.lock.Nobody? && s.sessions[i].config in s.heap
    ensures var run := [Act(i, Lock), Act(i, Drop)] + [Act(i, Test)]; var me := s.sessions[i];
            var left := s.heap[me.config].refcount - 1;
            && Possible(s, run)
            && Exec(s, run) ==
               Walked(s, i, me.(pc := RelTested(left == 0 && s.heap[me.config].delflg)),
                      s.heap[me.config := s.heap[me.config].(refcount := left)], BySession(i))
  {
    var run1, run2 := [Act(i, Lock), Act(i, Drop)], [Act(i, Test)];
    var me := s.sessions[i];
    var left := s.heap[me.config].refcount - 1;
    var less := s.heap[me.config := s.heap[me.config].(refcount := left)];
    LessSteps(s, i);
    TestSteps(Exec(s, run1), i);
    ExecConcat(s, run1, run2);
    WalkedTwice(s, i, me.(pc := RelDropped), less, BySession(i),
                me.(pc := RelTested(left == 0 && s.heap[me.config].delflg)), less, BySession(i));
  }

  lemma LeaveSteps(s: State, i: nat, free: bool)
    requires i < |s.sessions| && s.sessions[i].pc == RelTested(free) && s.sessions[i].config in s.heap
    ensures var run := [Act(i, Unlock), Act(i, Finish)]; var me := s.sessions[i];
            && Possible(s, run)
            && Exec(s, run) ==
               Walked(s, i, me.(pc := Dead), if free then s.heap - {me.config} else s.heap, Nobody)
  {
    var s1 := Apply(s, Act(i, Unlock));
    ExecStep(s1, Act(i, Finish), []);
    ExecStep(s, Act(i, Unlock), [Act(i, Finish)]);
  }

  lemma DroppedInParts(heap: map<Addr, ConfigSet>, a: Addr)
    requires a in heap
    ensures var left := heap[a].refcount - 1; var less := heap[a := heap[a].(refcount := left)];
            Dropped(heap, a) == if left == 0 && heap[a].delflg then less - {a} else less
  {
    assert heap[a := heap[a].(refcount := 0)] - {a} == heap - {a};
  }

  lemma AfterDrop(s: State, i: nat, run1: seq<Label>, me: Session, less: map<Addr, ConfigSet>, free: bool)
    requires i < |s.sessions| && me.config in less
    requires Leads(s, run1, Walked(s, i, me.(pc := RelTested(free)), less, BySession(i)))
    ensures Leads(s, run1 + [Act(i, Unlock), Act(i, Finish)],
                  Walked(s, i, me.(pc := Dead), if free then less - {me.config} else less, Nobody))
  {
    var middle := Walked(s, i, me.(pc := RelTested(free)), less, BySession(i));
    var rest := if free then less - {me.config} else less;
    LeaveSteps(middle, i, free);
    WalkedTwice(s, i, me.(pc := RelTested(free)), less, BySession(i), me.(pc := Dead), rest, Nobody);
    LeadsOn(s, run1, middle, [Act(i, Unlock), Act(i, Finish)], Walked(s, i, me.(pc := Dead), rest, Nobody));
  }

  /**
   release_config, uninterrupted, takes the steps that drop one reference, free the last
   one's set, end the session, and change nothing else.
   */
  lemma ReleaseIsItsSteps(s: State, i: nat)
    requires i < |s.sessions| && s.sessions[i].pc.Release? && s.lock.Nobody? && s.sessions[i].config in s.heap
    ensures Leads(s, ReleaseRun(i),
                  Walked(s, i, s.sessions[i].(pc := Dead), Dropped(s.heap, s.sessions[i].config), Nobody))
  {
    var me := s.sessions[i];
    var a := me.config;
    var left := s.heap[a].refcount - 1;
    DropSteps(s, i);
    DroppedInParts(s.heap, a);
    AfterDrop(s, i, [Act(i, Lock), Act(i, Drop)] + [Act(i, Test)], me,
              s.heap[a := s.heap[a].(refcount := left)], left == 0 && s.heap[a].delflg);
  }

  /** The state `s`, but the reload thread stands at `pc`, with this store and this owner of the mutex. */
  function Moved(s: State, pc: HupPc, heap: map<Addr, ConfigSet>, cur: Addr, lock: Owner): State
    requires s.frames != []
  {
    HupGoto(s, pc).(heap := heap, cur := cur, lock := lock)
  }

  lemma MovedTwice(
    s: State, pc: HupPc, heap: map<Addr, ConfigSet>, cur: Addr, lock: Owner,
    pc': HupPc, heap': map<Addr, ConfigSet>, cur': Addr, lock': Owner)
    requires s.frames != []
    ensures Moved(Moved(s, pc, heap, cur, lock), pc', heap', cur', lock') == Moved(s, pc', heap', cur', lock')
  {
    var n := |s.frames| - 1;
    var frame := s.frames[n];
    assert s.frames[n := frame.(pc := pc)][n := frame.(pc := pc')] == s.frames[n := frame.(pc := pc')];
  }

  lemma LoadSteps(s: State, made: Addr, data: ConfigData)
    requires s.frames != [] && Top(s.frames).Loading? && s.lock.Nobody? && made !in s.heap
    ensures Leads(s, [Hup(LoadOk(made, data)), Hup(HupLock), Hup(TakeOld)],
                  Moved(s, HasOld(made, s.cur), s.heap[made := ConfigSet(data, 0, false)], s.cur, ByHup))
  {
    var s1 := Apply(s, Hup(LoadOk(made, data)));
    var s2 := Apply(s1, Hup(HupLock));
    ExecStep(s2, Hup(TakeOld), []);
    ExecStep(s1, Hup(HupLock), [Hup(TakeOld)]);
    ExecStep(s, Hup(LoadOk(made, data)), [Hup(HupLock), Hup(TakeOld)]);
  }

  lemma MarkSteps(s: State, made: Addr)
    requires s.frames != [] && Top(s.frames) == HasOld(made, s.cur) && s.cur in s.heap
    ensures Leads(s, [Hup(MarkOld)],
                  Moved(s, Marked(made, s.cur), s.heap[s.cur := s.heap[s.cur].(delflg := true)], s.cur, s.lock))
  {
    ExecStep(s, Hup(MarkOld), []);
  }

  lemma PublishSteps(s: State, made: Addr, prior: Addr)
    requires s.frames != [] && Top(s.frames) == Marked(made, prior) && prior in s.heap
    ensures Leads(s, [Hup(Swap), Hup(TestOld)],
                  Moved(s, Tested(prior, s.heap[prior].refcount == 0), s.heap, made, s.lock))
  {
    var s1 := Apply(s, Hup(Swap));
    ExecStep(s1, Hup(TestOld), []);
    ExecStep(s, Hup(Swap), [Hup(TestOld)]);
  }

  lemma SwapSteps(s: State, made: Addr)
    requires s.frames != [] && Top(s.frames) == HasOld(made, s.cur) && s.cur in s.heap
    ensures Leads(s, [Hup(MarkOld)] + [Hup(Swap), Hup(TestOld)],
                  Moved(s, Tested(s.cur, s.heap[s.cur].refcount == 0),
                        s.heap[s.cur := s.heap[s.cur].(delflg := true)], made, s.lock))
  {
    var marked := s.heap[s.cur := s.heap[s.cur].(delflg := true)];
    var middle := Moved(s, Marked(made, s.cur), marked, s.cur, s.lock);
    var tested := Tested(s.cur, s.heap[s.cur].refcount == 0);
    MarkSteps(s, made);
    PublishSteps(middle, made, s.cur);
    MovedTwice(s, Marked(made, s.cur), marked, s.cur, s.lock, tested, marked, made, s.lock);
    LeadsOn(s, [Hup(MarkOld)], middle, [Hup(Swap), Hup(TestOld)], Moved(s, tested, marked, made, s.lock));
  }

  lemma LogSteps(s: State, prior: Addr, free: bool)
    requires s.frames != [] && Top(s.frames) == Tested(prior, free) && s.cur in s.heap
    ensures var run := [Hup(HupUnlock), Hup(SwitchLog), Hup(ChangeLog)];
            Possible(s, run) && Exec(s, run) == Moved(s, MayFree(prior, free), s.heap, s.cur, Nobody)
  {
    var s1 := Apply(s, Hup(HupUnlock));
    var s2 := Apply(s1, Hup(SwitchLog));
    ExecStep(s2, Hup(ChangeLog), []);
    ExecStep(s1, Hup(SwitchLog), [Hup(ChangeLog)]);
    ExecStep(s, Hup(HupUnlock), [Hup(SwitchLog), Hup(ChangeLog)]);
  }

  lemma FreeSteps(s: State, prior: Addr, free: bool)
    requires s.frames != [] && Top(s.frames) == MayFree(prior, free) && prior in s.heap
    ensures Leads(s, [Hup(FreeOld)],
                  Moved(s, Reloaded, if free then s.heap - {prior} else s.heap, s.cur, s.lock))
  {
    ExecStep(s, Hup(FreeOld), []);
  }

  lemma ReplacedInParts(heap: map<Addr, ConfigSet>, cur: Addr, made: Addr, data: ConfigData)
    requires cur in heap && made !in heap
    ensures var grown := heap[made := ConfigSet(data, 0, false)];
            var marked := grown[cur := grown[cur].(delflg := true)];
            Replaced(heap, cur, made, data) == if grown[cur].refcount == 0 then marked - {cur} else marked
  {
  }

  /** Up to the decision whether to free the old set. */
  lemma ReplaceSteps(s: State, made: Addr, data: ConfigData)
    requires s.frames != [] && Top(s.frames).Loading? && s.lock.Nobody? && s.cur in s.heap && made !in s.heap
    ensures var grown := s.heap[made := ConfigSet(data, 0, false)];
            Leads(s, [Hup(LoadOk(made, data)), Hup(HupLock), Hup(TakeOld)]
                     + ([Hup(MarkOld)] + [Hup(Swap), Hup(TestOld)]),
                  Moved(s, Tested(s.cur, grown[s.cur].refcount == 0),
                        grown[s.cur := grown[s.cur].(delflg := true)], made, ByHup))
  {
    var run1, run2 := [Hup(LoadOk(made, data)), Hup(HupLock), Hup(TakeOld)], [Hup(MarkOld)] + [Hup(Swap), Hup(TestOld)];
    var grown := s.heap[made := ConfigSet(data, 0, false)];
    var marked := grown[s.cur := grown[s.cur].(delflg := true)];
    var tested := Tested(s.cur, grown[s.cur].refcount == 0);
    var middle := Moved(s, HasOld(made, s.cur), grown, s.cur, ByHup);
    LoadSteps(s, made, data);
    SwapSteps(middle, made);
    MovedTwice(s, HasOld(made, s.cur), grown, s.cur, ByHup, tested, marked, made, ByHup);
    LeadsOn(s, run1, middle, run2, Moved(s, tested, marked, made, ByHup));
  }

  /** From there to the end of the call. */
  lemma LetGoSteps(s: State, prior: Addr, free: bool)
    requires s.frames != [] && Top(s.frames) == Tested(prior, free) && s.cur in s.heap && prior in s.heap
    ensures Leads(s, [Hup(HupUnlock), Hup(SwitchLog), Hup(ChangeLog)] + [Hup(FreeOld)],
                  Moved(s, Reloaded, if free then s.heap - {prior} else s.heap, s.cur, Nobody))
  {
    var run1, run2 := [Hup(HupUnlock), Hup(SwitchLog), Hup(ChangeLog)], [Hup(FreeOld)];
    var rest := if free then s.heap - {prior} else s.heap;
    var middle := Moved(s, MayFree(prior, free), s.heap, s.cur, Nobody);
    LogSteps(s, prior, free);
    FreeSteps(middle, prior, free);
    MovedTwice(s, MayFree(prior, free), s.heap, s.cur, Nobody, Reloaded, rest, s.cur, Nobody);
    LeadsOn(s, run1, middle, run2, Moved(s, Reloaded, rest, s.cur, Nobody));
  }

  lemma AfterReplace(
    s: State, run1: seq<Label>, prior: Addr, free: bool, marked: map<Addr, ConfigSet>, made: Addr)
    requires s.frames != [] && prior in marked && made in marked
    requires Leads(s, run1, Moved(s, Tested(prior, free), marked, made, ByHup))
    ensures Leads(s, run1 + ([Hup(HupUnlock), Hup(SwitchLog), Hup(ChangeLog)] + [Hup(FreeOld)]),
                  Moved(s, Reloaded, if free then marked - {prior} else marked, made, Nobody))
  {
    var middle := Moved(s, Tested(prior, free), marked, made, ByHup);
    var rest := if free then marked - {prior} else marked;
    LetGoSteps(middle, prior, free);
    MovedTwice(s, Tested(prior, free), marked, made, ByHup, Reloaded, rest, made, Nobody);
    LeadsOn(s, run1, middle, [Hup(HupUnlock), Hup(SwitchLog), Hup(ChangeLog)] + [Hup(FreeOld)],
            Moved(s, Reloaded, rest, made, Nobody));
  }

  /**
   reload_config, uninterrupted, takes the steps that replace the current set, and change
   nothing else.
   */
  lemma ReloadIsItsSteps(s: State, made: Addr, data: ConfigData)
    requires s.frames != [] && Top(s.frames).Loading? && s.lock.Nobody? && s.cur in s.heap && made !in s.heap
    ensures Leads(s, ReloadRun(made, data),
                  Moved(s, Reloaded, Replaced(s.heap, s.cur, made, data), made, Nobody))
  {
    var grown := s.heap[made := ConfigSet(data, 0, false)];
    ReplaceSteps(s, made, data);
    ReplacedInParts(s.heap, s.cur, made, data);
    AfterReplace(s, [Hup(LoadOk(made, data)), Hup(HupLock), Hup(TakeOld)]
                    + ([Hup(MarkOld)] + [Hup(Swap), Hup(TestOld)]),
                 s.cur, grown[s.cur].refcount == 0, grown[s.cur := grown[s.cur].(delflg := true)], made);
  }
}
