/**
 The running daemon as an interleaved step system: any number of milter
 sessions, and one reload thread whose SIGHUP handler may be interrupted by
 itself. One label is one atomic action of one thread, roughly one source line.

 Memory is explicit. A configuration set lives in `heap` from its allocation to
 its release, after which the allocator may hand out the same address again. A
 descriptor is in `table` from `socket` to `close`, after which the kernel may
 hand out the same number again. A step that touches something it must not
 touch is not forbidden: it is taken, and recorded in `faults`.
 */
module Daemon {
  import opened Bytes
  import opened Wire

  type Addr = nat

  datatype ConfigData = ConfigData(
    syslogFacility: seq<byte>, listenIp: seq<byte>, listenPort: int, milterTimeout: int,
    copyServerIp: seq<byte>, copyPort: int, copyMailTimeout: int, heloDomain: seq<byte>)

  datatype ConfigSet = ConfigSet(data: ConfigData, refcount: int, delflg: bool)

  /** Where a session's thread stands. */
  datatype SessionPc =
    | Connect                   // in get_config, before the lock
    | GetHeld                   // lock taken
    | GetLoaded                 // cfg_set = _cur_config
    | GetCounted                // cs_refcount++
    | Idle                      // connected; sd_config set; in or between callbacks
    | Opening                   // in start_smtp, `newSocket` open but not yet stored
    | Aborting                  // in mdfi_abort, socket closed but sd_socket not yet -1
    | Release                   // in release_config, before the lock
    | RelHeld                   // lock taken
    | RelDropped                // cs_refcount--
    | RelTested(free: bool)     // cfg_delflg decided
    | RelOut(free: bool)        // lock given back
    | Dead                      // session_data freed

  datatype Session = Session(pc: SessionPc, config: Addr, socket: int, newSocket: int)

  /** Where one activation of do_hup stands. */
  datatype HupPc =
    | Entered                            // before the signal is blocked
    | Loading                            // in reload_config, before setup_config_set
    | Loaded(made: Addr)                // new_config allocated and filled
    | Held(made: Addr)                  // lock taken
    | HasOld(made: Addr, prior: Addr)     // old_config = _cur_config
    | Marked(made: Addr, prior: Addr)     // old_config->cs_delflg = TRUE
    | Swapped(prior: Addr)                 // _cur_config = new_config
    | Tested(prior: Addr, free: bool)      // conf_delflg decided
    | Unlocked(prior: Addr, free: bool)    // lock given back, before switch_log
    | Relogged(prior: Addr, free: bool)    // before dglogchange
    | MayFree(prior: Addr, free: bool)     // before the final test
    | Reloaded                           // back in do_hup, before the signal is unblocked
    | Tail                               // signal unblocked, about to return

  /** An activation of the handler, with the signal mask to restore on return. */
  datatype Frame = Frame(pc: HupPc, savedMask: bool)

  datatype Owner = Nobody | BySession(i: nat) | ByHup

  /** A connection, with the session that opened it and how often it was closed. */
  datatype Conn = Conn(owner: nat, fd: int, log: seq<Event>, closes: nat)

  datatype Fault =
    | UseAfterFree      // a configuration set was read or written outside its life
    | BadFree           // a configuration set was freed outside its life
    | ForeignSocket     // a socket of another session was written, read or closed
    | BadClose          // a descriptor was closed that was not open

  datatype State = State(
    heap: map<Addr, ConfigSet>, cur: Addr, lock: Owner, sessions: seq<Session>,
    frames: seq<Frame>, blocked: bool, pending: bool,
    table: map<int, nat>, conns: seq<Conn>, faults: set<Fault>)

  datatype SessionAct =
    | Lock | Load | Count | Unlock
    | ReadConfig
    | Socket(fd: int) | Established | ConnectFailed
    | Write(bytes: seq<byte>) | Receive
    | AbortClose | AbortClear
    | CloseSocket | Drop | Test | Finish

  datatype HupAct =
    | Block
    | LoadFails | LoadOk(a: Addr, data: ConfigData)
    | HupLock | TakeOld | MarkOld | Swap | TestOld | HupUnlock
    | SwitchLog | ChangeLog | FreeOld
    | Unblock | Return

  datatype Label =
    | Spawn                              // a client connects; session_data_init
    | Act(i: nat, act: SessionAct)
    | Signal                             // SIGHUP is sent
    | Deliver                            // the pending SIGHUP interrupts the reload thread
    | Hup(hup: HupAct)                   // the reload thread's top activation moves

  /** The state right after `startup_config`. */
  function Init(a: Addr, data: ConfigData): State {
    State(map[a := ConfigSet(data, 0, false)], a, Nobody, [], [], false, false, map[], [], {})
  }

  /** The reload thread's program counter; `Tail` also stands for its sleeping loop. */
  function Top(frames: seq<Frame>): HupPc {
    if frames == [] then Tail else frames[|frames| - 1].pc
  }

  // ---------------------------------------------------------------- primitives

  function Touch(s: State, a: Addr): State {
    if a in s.heap then s else s.(faults := s.faults + {UseAfterFree})
  }

  function AddCount(s: State, a: Addr, d: int): State {
    if a in s.heap then s.(heap := s.heap[a := s.heap[a].(refcount := s.heap[a].refcount + d)])
    else Touch(s, a)
  }

  function Mark(s: State, a: Addr): State {
    if a in s.heap then s.(heap := s.heap[a := s.heap[a].(delflg := true)]) else Touch(s, a)
  }

  /** `free_config_set`, when the caller's flag says so. */
  function FreeIf(s: State, a: Addr, free: bool): State {
    if !free then s
    else if a in s.heap then s.(heap := s.heap - {a})
    else s.(faults := s.faults + {BadFree})
  }

  /** `close(fd)` by session `i`; closing -1 is refused by the kernel without effect. */
  function CloseFd(s: State, i: nat, fd: int): State {
    if fd == -1 then s
    else if fd in s.table && s.table[fd] < |s.conns| then
      var c := s.table[fd];
      s.(table := s.table - {fd},
         conns := s.conns[c := s.conns[c].(closes := s.conns[c].closes + 1)],
         faults := if s.conns[c].owner == i then s.faults else s.faults + {ForeignSocket})
    else s.(faults := s.faults + {BadClose})
  }

  /** Events on descriptor `fd` caused by session `i`; a bad descriptor has no effect. */
  function OnFd(s: State, i: nat, fd: int, events: seq<Event>): State {
    if fd in s.table && s.table[fd] < |s.conns| then
      var c := s.table[fd];
      s.(conns := s.conns[c := s.conns[c].(log := s.conns[c].log + events)],
         faults := if s.conns[c].owner == i then s.faults else s.faults + {ForeignSocket})
    else s
  }

  function HupGoto(s: State, pc: HupPc): State
    requires s.frames != []
  {
    s.(frames := s.frames[|s.frames| - 1 := s.frames[|s.frames| - 1].(pc := pc)])
  }

  // ---------------------------------------------------------------- session steps

  predicate CanAct(s: State, i: nat, act: SessionAct) {
    i < |s.sessions| &&
    var pc := s.sessions[i].pc;
    match act
    case Lock => (pc.Connect? || pc.Release?) && s.lock.Nobody?
    case Load => pc.GetHeld?
    case Count => pc.GetLoaded?
    case Unlock => pc.GetCounted? || pc.RelTested?
    case ReadConfig => pc.Idle? || pc.Opening?
    case Socket(fd) => pc.Idle? && s.sessions[i].socket == -1 && 0 <= fd && fd !in s.table
    case Established => pc.Opening?
    case ConnectFailed => pc.Opening?
    case Write(_) => pc.Idle?
    case Receive => pc.Idle?
    case AbortClose => pc.Idle?
    case AbortClear => pc.Aborting?
    case CloseSocket => pc.Idle?
    case Drop => pc.RelHeld?
    case Test => pc.RelDropped?
    case Finish => pc.RelOut?
  }

  /** The session's own fields after the step. */
  function Next(s: State, i: nat, act: SessionAct): Session
    requires CanAct(s, i, act)
  {
    var me := s.sessions[i];
    match act
    case Lock => me.(pc := if me.pc.Connect? then GetHeld else RelHeld)
    case Load => me.(pc := GetLoaded, config := s.cur)
    case Count => me.(pc := GetCounted)
    case Unlock => me.(pc := if me.pc.GetCounted? then Idle else RelOut(me.pc.free))
    case Socket(fd) => me.(pc := Opening, newSocket := fd)
    case Established => me.(pc := Idle, socket := me.newSocket)
    case ConnectFailed => me.(pc := Idle, socket := -1)
    case AbortClose => me.(pc := Aborting)
    case AbortClear => me.(pc := Idle, socket := -1)
    case CloseSocket => me.(pc := Release)
    case Drop => me.(pc := RelDropped)
    case Test =>
      me.(pc := RelTested(me.config in s.heap && s.heap[me.config].refcount == 0 && s.heap[me.config].delflg))
    case Finish => me.(pc := Dead)
    case _ => me
  }

  function DoAct(s: State, i: nat, act: SessionAct): State
    requires CanAct(s, i, act)
  {
    var me := s.sessions[i];
    var moved := s.(sessions := s.sessions[i := Next(s, i, act)]);
    match act
    case Lock => moved.(lock := BySession(i))
    case Load => moved
    case Count => AddCount(moved, me.config, 1)
    case Unlock => moved.(lock := Nobody)
    case ReadConfig => Touch(moved, me.config)
    case Socket(fd) => moved.(table := s.table[fd := |s.conns|], conns := s.conns + [Conn(i, fd, [], 0)])
    case Established => OnFd(moved, i, me.newSocket, [Reply])
    case ConnectFailed => CloseFd(moved, i, me.newSocket)
    case Write(bytes) => OnFd(moved, i, me.socket, Say(bytes))
    case Receive => OnFd(moved, i, me.socket, [Reply])
    case AbortClose => CloseFd(moved, i, me.socket)
    case AbortClear => moved
    case CloseSocket => CloseFd(moved, i, me.socket)
    case Drop => AddCount(moved, me.config, -1)
    case Test => Touch(moved, me.config)
    case Finish => FreeIf(moved, me.config, me.pc.free)
  }

  // ---------------------------------------------------------------- reload thread

  predicate CanHup(s: State, act: HupAct) {
    s.frames != [] &&
    var pc := Top(s.frames);
    match act
    case Block => pc.Entered?
    case LoadFails => pc.Loading?
    case LoadOk(a, _) => pc.Loading? && a !in s.heap
    case HupLock => pc.Loaded? && s.lock.Nobody?
    case TakeOld => pc.Held?
    case MarkOld => pc.HasOld?
    case Swap => pc.Marked?
    case TestOld => pc.Swapped?
    case HupUnlock => pc.Tested?
    case SwitchLog => pc.Unlocked?
    case ChangeLog => pc.Relogged?
    case FreeOld => pc.MayFree?
    case Unblock => pc.Reloaded?
    case Return => pc.Tail?
  }

  function DoHup(s: State, act: HupAct): State
    requires CanHup(s, act)
  {
    var pc := Top(s.frames);
    match act
    case Block => HupGoto(s, Loading).(blocked := true)
    case LoadFails => HupGoto(s, Reloaded)
    case LoadOk(a, data) => HupGoto(s, Loaded(a)).(heap := s.heap[a := ConfigSet(data, 0, false)])
    case HupLock => HupGoto(s, Held(pc.made)).(lock := ByHup)
    case TakeOld => HupGoto(s, HasOld(pc.made, s.cur))
    case MarkOld => Mark(HupGoto(s, Marked(pc.made, pc.prior)), pc.prior)
    case Swap => HupGoto(s, Swapped(pc.prior)).(cur := pc.made)
    case TestOld =>
      var free := pc.prior in s.heap && s.heap[pc.prior].refcount == 0;
      Touch(HupGoto(s, Tested(pc.prior, free)), pc.prior)
    case HupUnlock => HupGoto(s, Unlocked(pc.prior, pc.free)).(lock := Nobody)
    case SwitchLog => Touch(HupGoto(s, Relogged(pc.prior, pc.free)), s.cur)
    case ChangeLog => Touch(HupGoto(s, MayFree(pc.prior, pc.free)), s.cur)
    case FreeOld => FreeIf(HupGoto(s, Reloaded), pc.prior, pc.free)
    case Unblock => HupGoto(s, Tail).(blocked := false)
    case Return => s.(frames := s.frames[..|s.frames| - 1], blocked := s.frames[|s.frames| - 1].savedMask)
  }

  // ---------------------------------------------------------------- all steps

  predicate Enabled(s: State, l: Label) {
    match l
    case Spawn => true
    case Act(i, act) => CanAct(s, i, act)
    case Signal => true
    case Deliver => s.pending && !s.blocked
    case Hup(act) => CanHup(s, act)
  }

  function Apply(s: State, l: Label): State
    requires Enabled(s, l)
  {
    match l
    case Spawn => s.(sessions := s.sessions + [Session(Connect, 0, -1, -1)])
    case Act(i, act) => DoAct(s, i, act)
    case Signal => s.(pending := true)
    case Deliver => s.(frames := s.frames + [Frame(Entered, s.blocked)], blocked := true, pending := false)
    case Hup(act) => DoHup(s, act)
  }

  /** True if the labels can be taken one after another from `s`. */
  predicate Possible(s: State, run: seq<Label>)
    decreases |run|
  {
    run == [] || (Enabled(s, run[0]) && Possible(Apply(s, run[0]), run[1..]))
  }

  /** The state a run ends in. */
  function Exec(s: State, run: seq<Label>): State
    requires Possible(s, run)
    decreases |run|
  {
    if run == [] then s else Exec(Apply(s, run[0]), run[1..])
  }
}
