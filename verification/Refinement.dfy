/**
 The reference-counted store refines one without memory management, in which
 connecting records the current configuration, reloading replaces it in one
 step, and closing forgets the record.
 */
module Refinement {
  import opened Daemon
  import opened DaemonInvariant
  import opened DaemonEffects

  // ---------------------------------------------------------------- the simple store

  datatype SimpleStore = SimpleStore(current: ConfigData, recorded: map<nat, ConfigData>)

  /** What a step shows to the outside: which contents were seen by whom. */
  datatype Visible =
    | Connects(i: nat, data: ConfigData)   // session i takes the current configuration
    | Reads(i: nat, data: ConfigData)      // session i reads its settings
    | Closes(i: nat)                       // session i gives its configuration back
    | Reloads(data: ConfigData)            // a new configuration becomes current
    | LogsWith(data: ConfigData)           // the reload thread reads the current settings
    | Silent
    | Garbage                              // something was read that was not there

  predicate Allows(st: SimpleStore, v: Visible) {
    match v
    case Connects(i, data) => i !in st.recorded && data == st.current
    case Reads(i, data) => i in st.recorded && st.recorded[i] == data
    case Closes(i) => i in st.recorded
    case Reloads(_) => true
    case LogsWith(data) => data == st.current
    case Silent => true
    case Garbage => false
  }

  function After(st: SimpleStore, v: Visible): SimpleStore {
    match v
    case Connects(i, data) => st.(recorded := st.recorded[i := data])
    case Closes(i) => st.(recorded := st.recorded - {i})
    case Reloads(data) => st.(current := data)
    case _ => st
  }

  /** The simple store can show `trace`, starting from `st`. */
  predicate Shows(st: SimpleStore, trace: seq<Visible>)
    decreases |trace|
  {
    trace == [] || (Allows(st, trace[0]) && Shows(After(st, trace[0]), trace[1..]))
  }

  function Final(st: SimpleStore, trace: seq<Visible>): SimpleStore
    decreases |trace|
  {
    if trace == [] then st else Final(After(st, trace[0]), trace[1..])
  }

  // ---------------------------------------------------------------- what the daemon shows

  function Seen(s: State, a: Addr, show: ConfigData -> Visible): Visible {
    if a in s.heap then show(s.heap[a].data) else Garbage
  }

  function ActShows(s: State, i: nat, act: SessionAct): Visible
    requires CanAct(s, i, act)
  {
    match act
    case Load => Seen(s, s.cur, d => Connects(i, d))
    case ReadConfig => Seen(s, s.sessions[i].config, d => Reads(i, d))
    case Drop => Closes(i)
    case _ => Silent
  }

  function HupShows(s: State, act: HupAct): Visible
    requires CanHup(s, act)
  {
    match act
    case Swap => Seen(s, Top(s.frames).made, d => Reloads(d))
    case SwitchLog => Seen(s, s.cur, d => LogsWith(d))
    case ChangeLog => Seen(s, s.cur, d => LogsWith(d))
    case _ => Silent
  }

  function StepShows(s: State, l: Label): Visible
    requires Enabled(s, l)
  {
    match l
    case Act(i, act) => ActShows(s, i, act)
    case Hup(act) => HupShows(s, act)
    case _ => Silent
  }

  function Trace(s: State, run: seq<Label>): seq<Visible>
    requires Possible(s, run)
    decreases |run|
  {
    if run == [] then [] else [StepShows(s, run[0])] + Trace(Apply(s, run[0]), run[1..])
  }

  // ---------------------------------------------------------------- the abstraction

  /** From reading `_cur_config` to dropping the count, a session has a configuration. */
  predicate Recorded(pc: SessionPc) {
    Counted(pc) || pc.GetLoaded?
  }

  ghost function Records(heap: Heap, sessions: seq<Session>): map<nat, ConfigData> {
    map i: nat | 0 <= i < |sessions| && Recorded(sessions[i].pc) && sessions[i].config in heap
      :: heap[sessions[i].config].data
  }

  ghost function Abstraction(s: State): SimpleStore
    requires s.cur in s.heap
  {
    SimpleStore(s.heap[s.cur].data, Records(s.heap, s.sessions))
  }

  /** Records depend on the data of the sets that sessions point at, and on nothing else in the heap. */
  lemma RecordsSame(heap: Heap, heap': Heap, sessions: seq<Session>)
    requires forall i :: 0 <= i < |sessions| && Recorded(sessions[i].pc) ==>
               && sessions[i].config in heap && sessions[i].config in heap'
               && heap'[sessions[i].config].data == heap[sessions[i].config].data
    ensures Records(heap', sessions) == Records(heap, sessions)
  {
  }

  lemma RecordsUpdate(heap: Heap, sessions: seq<Session>, i: nat, m: Session)
    requires i < |sessions|
    requires Recorded(m.pc) ==> m.config in heap
    ensures Records(heap, sessions[i := m]) ==
            if Recorded(m.pc) then Records(heap, sessions)[i := heap[m.config].data]
            else Records(heap, sessions) - {i}
  {
  }

  lemma RecordsAppend(heap: Heap, sessions: seq<Session>, m: Session)
    requires !Recorded(m.pc)
    ensures Records(heap, sessions + [m]) == Records(heap, sessions)
  {
    assert forall i :: 0 <= i < |sessions| ==> (sessions + [m])[i] == sessions[i];
  }

  // ---------------------------------------------------------------- forward simulation

  lemma HeapData(s: State, l: Label)
    requires Inv(s) && Enabled(s, l)
    ensures var s' := Apply(s, l);
            && (forall i :: 0 <= i < |s.sessions| && Recorded(s.sessions[i].pc) ==>
                  && s.sessions[i].config in s.heap && s.sessions[i].config in s'.heap
                  && s'.heap[s.sessions[i].config].data == s.heap[s.sessions[i].config].data)
            && s.cur in s'.heap && s'.heap[s.cur].data == s.heap[s.cur].data
  {
    forall a | a in s.heap && a !in Apply(s, l).heap
      ensures a != s.cur
      ensures forall i :: 0 <= i < |s.sessions| && Recorded(s.sessions[i].pc) ==> s.sessions[i].config != a
    {
      HeapEffect(s, l, a);
      var t := if l.Act? then l.i else -1;
      assert WillFree(s.heap, Top(s.frames), s.sessions, t, a);
      FreedIsUnused(s, t, a);
    }
    forall a | a in s.heap && a in Apply(s, l).heap ensures Apply(s, l).heap[a].data == s.heap[a].data {
      HeapEffect(s, l, a);
    }
  }

  /** How a step of session `i` moves the session in or out of the records. */
  lemma NextMoves(s: State, i: nat, act: SessionAct)
    requires CanAct(s, i, act)
    ensures var me := s.sessions[i]; var m := Next(s, i, act);
            if act.Load? then !Recorded(me.pc) && Recorded(m.pc) && m.config == s.cur
            else m.config == me.config &&
                 if act.Drop? then Recorded(me.pc) && !Recorded(m.pc) else Recorded(m.pc) == Recorded(me.pc)
  {
  }

  lemma RecordOf(s: State, i: nat)
    requires Inv(s) && i < |s.sessions|
    ensures i in Records(s.heap, s.sessions) <==> Recorded(s.sessions[i].pc)
    ensures Recorded(s.sessions[i].pc) ==>
              && s.sessions[i].config in s.heap
              && Records(s.heap, s.sessions)[i] == s.heap[s.sessions[i].config].data
  {
  }

  lemma ActAllowed(s: State, i: nat, act: SessionAct)
    requires Inv(s) && CanAct(s, i, act)
    ensures Allows(Abstraction(s), ActShows(s, i, act))
  {
    RecordOf(s, i);
  }

  lemma RecordsMove(s: State, i: nat, act: SessionAct)
    requires Inv(s) && CanAct(s, i, act)
    ensures var s' := DoAct(s, i, act); var m := Next(s, i, act);
            && (Recorded(m.pc) ==> m.config in s.heap)
            && Records(s'.heap, s'.sessions) ==
                 if Recorded(m.pc) then Records(s.heap, s.sessions)[i := s.heap[m.config].data]
                 else Records(s.heap, s.sessions) - {i}
  {
    var m := Next(s, i, act);
    var heap' := DoAct(s, i, act).heap;
    ActEffect(s, i, act);
    NextMoves(s, i, act);
    HeapData(s, Act(i, act));
    RecordsSame(s.heap, heap', s.sessions);
    RecordsUpdate(heap', s.sessions, i, m);
  }

  /** Moving the session in or out of the records is what the simple store does. */
  lemma MoveIsAfter(s: State, i: nat, act: SessionAct)
    requires Inv(s) && CanAct(s, i, act)
    requires Recorded(Next(s, i, act).pc) ==> Next(s, i, act).config in s.heap
    ensures var m := Next(s, i, act); var records := Records(s.heap, s.sessions);
            After(Abstraction(s), ActShows(s, i, act)).recorded ==
              if Recorded(m.pc) then records[i := s.heap[m.config].data] else records - {i}
  {
    NextMoves(s, i, act);
    RecordOf(s, i);
  }

  lemma ActSimulates(s: State, i: nat, act: SessionAct)
    requires Inv(s) && CanAct(s, i, act)
    ensures var s' := DoAct(s, i, act); var v := ActShows(s, i, act);
            s'.cur in s'.heap && Allows(Abstraction(s), v) && Abstraction(s') == After(Abstraction(s), v)
  {
    ActEffect(s, i, act);
    HeapData(s, Act(i, act));
    ActAllowed(s, i, act);
    RecordsMove(s, i, act);
    MoveIsAfter(s, i, act);
  }

  lemma HupSimulates(s: State, act: HupAct)
    requires Inv(s) && CanHup(s, act)
    ensures var s' := DoHup(s, act); var v := HupShows(s, act);
            s'.cur in s'.heap && Allows(Abstraction(s), v) && Abstraction(s') == After(Abstraction(s), v)
  {
    HupEffect(s, act);
    HeapData(s, Hup(act));
    RecordsSame(s.heap, DoHup(s, act).heap, s.sessions);
  }

  /** Every step is a step of the simple store, or shows nothing and changes nothing there. */
  lemma StepSimulates(s: State, l: Label)
    requires Inv(s) && Enabled(s, l)
    ensures var s' := Apply(s, l); var v := StepShows(s, l);
            s'.cur in s'.heap && Allows(Abstraction(s), v) && Abstraction(s') == After(Abstraction(s), v)
  {
    match l
    case Act(i, act) => ActSimulates(s, i, act);
    case Hup(act) => HupSimulates(s, act);
    case Spawn => RecordsAppend(s.heap, s.sessions, Session(Connect, 0, -1, -1));
    case _ =>
  }

  /** Every run of the daemon is, as far as anyone can see, a run of the simple store. */
  lemma {:induction false} RunSimulates(s: State, run: seq<Label>)
    requires Inv(s) && Possible(s, run)
    ensures Exec(s, run).cur in Exec(s, run).heap
    ensures Shows(Abstraction(s), Trace(s, run))
    ensures Abstraction(Exec(s, run)) == Final(Abstraction(s), Trace(s, run))
    decreases |run|
  {
    if run != [] {
      StepKeeps(s, run[0]);
      StepSimulates(s, run[0]);
      RunSimulates(Apply(s, run[0]), run[1..]);
      assert Trace(s, run)[1..] == Trace(Apply(s, run[0]), run[1..]);
    }
  }

  // ---------------------------------------------------------------- snapshot stability

  /** The configuration that is current after `trace`, when `data` was before. */
  function CurrentAfter(data: ConfigData, trace: seq<Visible>): ConfigData
    decreases |trace|
  {
    if trace == [] then data
    else CurrentAfter(if trace[0].Reloads? then trace[0].data else data, trace[1..])
  }

  /** At `p`, session `i` connected and took what was current then, `data`; up to `q` it has not closed. */
  ghost predicate TookAt(start: ConfigData, trace: seq<Visible>, p: nat, q: nat, i: nat, data: ConfigData) {
    && p < q <= |trace|
    && trace[p] == Connects(i, data)
    && data == CurrentAfter(start, trace[..p])
    && forall k :: p < k < q ==> trace[k] != Closes(i)
  }

  lemma {:induction false} StoreIsStable(st: SimpleStore, trace: seq<Visible>, q: nat, i: nat, data: ConfigData)
    requires Shows(st, trace) && q < |trace| && trace[q] == Reads(i, data)
    ensures || (i in st.recorded && st.recorded[i] == data && forall k :: 0 <= k < q ==> trace[k] != Closes(i))
            || exists p: nat :: TookAt(st.current, trace, p, q, i, data)
    decreases q
  {
    if q > 0 {
      var st' := After(st, trace[0]);
      var rest, last := trace[1..], q - 1;
      StoreIsStable(st', rest, last, i, data);
      if p: nat :| TookAt(st'.current, rest, p, last, i, data) {
        assert trace[..p + 1][1..] == rest[..p];
        assert forall k :: p + 1 < k < q ==> trace[k] == rest[k - 1];
        assert TookAt(st.current, trace, p + 1, q, i, data);
      } else {
        assert forall k :: 1 <= k < q ==> trace[k] == rest[k - 1];
        if trace[0].Connects? && trace[0].i == i {
          assert trace[..0] == [];
          assert TookAt(st.current, trace, 0, q, i, data);
        }
      }
    }
  }

  /**
   From connect to close, every setting a session reads is that of the one
   configuration that was current when it connected, whatever reloads happen.
   */
  lemma SnapshotStable(a: Addr, start: ConfigData, run: seq<Label>, q: nat, i: nat, data: ConfigData)
    requires Possible(Init(a, start), run)
    requires q < |Trace(Init(a, start), run)| && Trace(Init(a, start), run)[q] == Reads(i, data)
    ensures exists p: nat :: TookAt(start, Trace(Init(a, start), run), p, q, i, data)
  {
    InitInv(a, start);
    RunSimulates(Init(a, start), run);
    StoreIsStable(Abstraction(Init(a, start)), Trace(Init(a, start), run), q, i, data);
  }

  lemma ActIsNotHidden(s: State, i: nat, act: SessionAct)
    requires Inv(s) && CanAct(s, i, act)
    ensures act.Load? ==> ActShows(s, i, act) == Connects(i, s.heap[s.cur].data)
    ensures act.ReadConfig? ==>
              && s.sessions[i].config in s.heap
              && ActShows(s, i, act) == Reads(i, s.heap[s.sessions[i].config].data)
    ensures act.Drop? ==> ActShows(s, i, act) == Closes(i)
  {
  }

  lemma HupIsNotHidden(s: State, act: HupAct)
    requires Inv(s) && CanHup(s, act)
    ensures var cur' := DoHup(s, act).cur;
            cur' != s.cur ==> cur' in s.heap && HupShows(s, act) == Reloads(s.heap[cur'].data)
    ensures act.SwitchLog? || act.ChangeLog? ==> HupShows(s, act) == LogsWith(s.heap[s.cur].data)
  {
  }

  /**
   Nothing is hidden: every taking, reading and dropping of a configuration shows, and so
   does every change of the current one.
   */
  lemma NothingIsHidden(s: State, l: Label)
    requires Inv(s) && Enabled(s, l)
    ensures l.Act? && l.act.Load? ==> StepShows(s, l) == Connects(l.i, s.heap[s.cur].data)
    ensures l.Act? && l.act.ReadConfig? ==>
              && s.sessions[l.i].config in s.heap
              && StepShows(s, l) == Reads(l.i, s.heap[s.sessions[l.i].config].data)
    ensures l.Act? && l.act.Drop? ==> StepShows(s, l) == Closes(l.i)
    ensures Apply(s, l).cur != s.cur ==>
              && Apply(s, l).cur in s.heap
              && StepShows(s, l) == Reloads(s.heap[Apply(s, l).cur].data)
    ensures l.Hup? && (l.hup.SwitchLog? || l.hup.ChangeLog?) ==> StepShows(s, l) == LogsWith(s.heap[s.cur].data)
  {
    match l
    case Act(i, act) => ActEffect(s, i, act); ActIsNotHidden(s, i, act);
    case Hup(act) => HupIsNotHidden(s, act);
    case _ =>
  }

  /** What the reload thread reads for its log is the configuration current at that moment. */
  lemma {:induction false} LogIsCurrent(st: SimpleStore, trace: seq<Visible>, q: nat, data: ConfigData)
    requires Shows(st, trace) && q < |trace| && trace[q] == LogsWith(data)
    ensures data == CurrentAfter(st.current, trace[..q])
    decreases q
  {
    if q > 0 {
      LogIsCurrent(After(st, trace[0]), trace[1..], q - 1, data);
      assert trace[..q][1..] == trace[1..][..q - 1];
    }
  }

  /** As long as session `i` has not closed, it does not connect again. */
  lemma {:induction false} NotTwice(st: SimpleStore, trace: seq<Visible>, q: nat, i: nat)
    requires Shows(st, trace) && q < |trace| && i in st.recorded
    requires forall k :: 0 <= k < q ==> trace[k] != Closes(i)
    ensures !(trace[q].Connects? && trace[q].i == i)
    decreases q
  {
    if q > 0 {
      assert forall k :: 1 <= k < q ==> trace[k] == trace[1..][k - 1];
      NotTwice(After(st, trace[0]), trace[1..], q - 1, i);
    }
  }

  lemma {:induction false} ClosesBetween(st: SimpleStore, trace: seq<Visible>, p: nat, q: nat, i: nat)
    requires Shows(st, trace) && p < q < |trace|
    requires trace[p].Connects? && trace[p].i == i && trace[q].Connects? && trace[q].i == i
    ensures exists k :: p < k < q && trace[k] == Closes(i)
    decreases p
  {
    var st', rest := After(st, trace[0]), trace[1..];
    if p > 0 {
      ClosesBetween(st', rest, p - 1, q - 1, i);
      var k :| p - 1 < k < q - 1 && rest[k] == Closes(i);
      assert trace[k + 1] == Closes(i);
    } else if forall k :: 0 <= k < q - 1 ==> rest[k] != Closes(i) {
      NotTwice(st', rest, q - 1, i);
    } else {
      var k :| 0 <= k < q - 1 && rest[k] == Closes(i);
      assert trace[k + 1] == Closes(i);
    }
  }

  /** At `p`, session `i` connected, and up to `q` it has not closed. */
  ghost predicate OpenFrom(trace: seq<Visible>, p: nat, q: nat, i: nat) {
    p < q <= |trace| && trace[p].Connects? && trace[p].i == i && forall k :: p < k < q ==> trace[k] != Closes(i)
  }

  lemma {:induction false} ClosesWhatIsOpen(st: SimpleStore, trace: seq<Visible>, q: nat, i: nat)
    requires Shows(st, trace) && q < |trace| && trace[q] == Closes(i)
    ensures || (i in st.recorded && forall k :: 0 <= k < q ==> trace[k] != Closes(i))
            || exists p: nat :: OpenFrom(trace, p, q, i)
    decreases q
  {
    if q > 0 {
      var rest, last := trace[1..], q - 1;
      ClosesWhatIsOpen(After(st, trace[0]), rest, last, i);
      if p: nat :| OpenFrom(rest, p, last, i) {
        assert forall k :: p + 1 < k < q ==> trace[k] == rest[k - 1];
        assert OpenFrom(trace, p + 1, q, i);
      } else {
        assert forall k :: 1 <= k < q ==> trace[k] == rest[k - 1];
        if trace[0].Connects? && trace[0].i == i {
          assert OpenFrom(trace, 0, q, i);
        }
      }
    }
  }

  /** In every run, a session takes a configuration only when it has none, and gives back only one it took. */
  lemma TakesAndGivesBack(a: Addr, start: ConfigData, run: seq<Label>, q: nat, i: nat)
    requires Possible(Init(a, start), run) && q < |Trace(Init(a, start), run)|
    ensures var trace := Trace(Init(a, start), run);
            && (trace[q] == Closes(i) ==> exists p: nat :: OpenFrom(trace, p, q, i))
            && (trace[q].Connects? && trace[q].i == i ==> forall p: nat :: !OpenFrom(trace, p, q, i))
  {
    var st, trace := Abstraction(Init(a, start)), Trace(Init(a, start), run);
    InitInv(a, start);
    RunSimulates(Init(a, start), run);
    if trace[q] == Closes(i) {
      ClosesWhatIsOpen(st, trace, q, i);
    }
    if trace[q].Connects? && trace[q].i == i {
      forall p: nat | OpenFrom(trace, p, q, i) ensures false {
        ClosesBetween(st, trace, p, q, i);
      }
    }
  }

  lemma {:induction false} ShowsNoGarbage(st: SimpleStore, trace: seq<Visible>)
    requires Shows(st, trace)
    ensures Garbage !in trace
    decreases |trace|
  {
    if trace != [] {
      ShowsNoGarbage(After(st, trace[0]), trace[1..]);
    }
  }

  /** No interleaving of the daemon ever shows a read of something that was not there. */
  lemma NothingIsGarbage(a: Addr, start: ConfigData, run: seq<Label>)
    requires Possible(Init(a, start), run)
    ensures Garbage !in Trace(Init(a, start), run)
  {
    InitInv(a, start);
    RunSimulates(Init(a, start), run);
    ShowsNoGarbage(Abstraction(Init(a, start)), Trace(Init(a, start), run));
  }
}
