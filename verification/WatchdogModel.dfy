/**
  The privileged scanner's watchdog protocol as a labelled transition system.

  Any number of capture threads, one watchdog and the exiting main thread share the locked
  record `{phase, in_flight, pid}` and the lock-free flag `EXPIRING`. Every critical section is
  one atomic step. `fork`, the child's check and `exec` are separate steps, bounded waits may
  time out at any moment, and the operating system may reuse a pid as soon as no unreaped
  process uses it as a pid or as a group. Processes may move between groups at any time.
 */
module WatchdogModel {
  import opened Options

  datatype Phase = Running | Expiring | Expired | Exiting

  /** `WatchdogState` together with the lock-free mirror `EXPIRING`. A `pid` of 0 means "none". */
  datatype Shared = Shared(phase: Phase, inFlight: bool, pid: int, expiring: bool)

  type Tid = nat
  /** The identity of a process. Unlike a pid it is never reused. */
  type Id = nat

  // ---------------------------------------------------------------- critical sections

  predicate MayAuthorise(s: Shared) {
    s.phase == Running && s.pid == 0 && !s.inFlight
  }

  function Authorised(s: Shared): Shared { s.(inFlight := true) }

  function Released(s: Shared): Shared { s.(inFlight := false) }

  function Registered(s: Shared, pid: int): Shared { s.(inFlight := false, pid := pid) }

  function Cleared(s: Shared): Shared { s.(pid := 0) }

  function ExpiryEntered(s: Shared): Shared { s.(phase := Expiring, expiring := true) }

  function ExpiryLeft(s: Shared): Shared { s.(phase := Expired) }

  function ExitBegun(s: Shared): Shared { s.(phase := Exiting) }

  /** The group the watchdog signals from `kill_active_group`: 0 for none. */
  function ActiveTarget(s: Shared): int {
    if s.phase in {Expiring, Expired} && s.pid > 0 then s.pid else 0
  }

  // ---------------------------------------------------------------- processes

  datatype Origin =
    | Primitive(thread: Tid)      // forked by a capture
    | Descendant(root: Id)        // forked below the primitive `root`
    | Unrelated

  datatype ProcState =
    | Fresh                       // forked, EXPIRING not checked yet
    | Ready                       // check passed, leads its own group
    | Execed
    | Zombie(reported: bool)      // `reported`: it told the parent that its set-up failed
    | Reaped

  /**
    A process group is a number, `pgid`, that is reused, and an identity that is not: the process
    that created it, `None` for the scanner's own group. `joined`: the process, or one it was forked
    from, moved into its group from another lineage.
   */
  datatype Group = Group(pgid: int, leader: Option<Id>, joined: bool)

  /** `sawExpiring` is the copy of EXPIRING the process got at fork time. */
  datatype Proc = Proc(pid: int, group: Group, origin: Origin, sawExpiring: bool, st: ProcState)

  /** The group a process creates for itself. */
  function OwnGroup(id: Id, p: Proc): Group { Group(p.pid, Some(id), false) }

  predicate Alive(p: Proc) { p.st in {Fresh, Ready, Execed} }

  /** The primitive a process descends from (itself, for a primitive or an unrelated process). */
  function Lineage(id: Id, p: Proc): Id {
    match p.origin
    case Descendant(root) => root
    case _ => id
  }

  /** SIGKILL to a whole group. */
  function KillGroup(procs: map<Id, Proc>, group: int): map<Id, Proc> {
    map id | id in procs ::
      if procs[id].group.pgid == group && Alive(procs[id]) then procs[id].(st := Zombie(false)) else procs[id]
  }

  // ---------------------------------------------------------------- the state

  /** Where one `capture` call stands, from its authorisation on. */
  datatype Cap =
    | Authorising                 // in_flight is set, the late check is next
    | Aborting                    // the late check saw EXPIRING
    | Checked                     // the late check passed, `spawn` is next
    | Spawning(child: Id)         // forked, waiting for the exec handshake
    | SpawnFailed
    | Returned(child: Id)         // `spawn` returned, the pid is not registered yet
    | Guarded(child: Id)          // registered, `Guard` is live
    | Dropped(child: Id)          // `Guard` killed the group and cleared the pid, the reap is next

  datatype Watch =
    | WIdle | WWaiting | WWaited | WActiveDone | WRefused | WSweeping
    | WSwept | WPanicked | WFired | WPanicFired | WLeft

  datatype Exit = XIdle | XSweeping | XWaiting | XDone

  /** `scanner` is the scanner's pid and group, `ownGroup` the argument of `expire_watchdog`. */
  datatype State = State(
    scanner: int, ownGroup: int,
    shared: Shared, caps: map<Tid, Cap>, w: Watch, x: Exit, procs: map<Id, Proc>)

  ghost predicate Initial(s: State) {
    && s.scanner > 1
    && s.shared == Shared(Running, false, 0, false)
    && s.caps == map[] && s.w == WIdle && s.x == XIdle && s.procs == map[]
  }

  // ---------------------------------------------------------------- labels

  datatype CapLabel =
    | Authorise | LatePass | LateAbort | AbortRelease
    | Fork(child: Id, pid: int) | ForkFails
    | SpawnOk(child: Id) | SpawnErr(child: Id)
    | Register(child: Id) | RegisterFailed
    | GuardDrop(child: Id) | Reap(child: Id)

  datatype WatchLabel =
    | Enter | WaitClear | WaitTimeout | KillActive | KillGivesUp | Refuse
    | SweepStart | SweepKill(id: Id) | SweepEnd | SweepPanic | OwnGroupKill | Log | Leave

  datatype ExitLabel =
    | ExitBegin | ExitWait | ExitNothing | ExitSweepKill(id: Id) | ExitSweepEnd | ExitWaitEnds

  datatype OsLabel =
    | ChildRefuses(id: Id) | ChildReady(id: Id) | ChildReports(id: Id) | Exec(id: Id)
    | Die(id: Id) | DescFork(parent: Id, id: Id, pid: int)
    | NewGroup(id: Id) | JoinGroup(id: Id, member: Id)     // `setpgid`, `setsid`
    | ReapOther(id: Id) | Appear(id: Id, pid: int, from: Option<Id>)

  datatype Label = Cap(t: Tid, c: CapLabel) | Wd(w: WatchLabel) | Ex(x: ExitLabel) | Os(o: OsLabel)

  // ---------------------------------------------------------------- steps

  /** The kernel hands out a pid only while nothing unreaped uses it as a pid or a group. */
  ghost predicate FreePid(s: State, pid: int) {
    && pid > 1 && pid != s.scanner
    && forall id :: id in s.procs && s.procs[id].st != Reaped ==>
         s.procs[id].pid != pid && s.procs[id].group.pgid != pid
  }

  predicate At(s: State, t: Tid, c: Cap) { t in s.caps && s.caps[t] == c }

  ghost predicate CapEnabled(s: State, t: Tid, l: CapLabel) {
    match l
    case Authorise => t !in s.caps && MayAuthorise(s.shared)
    case LatePass => At(s, t, Authorising) && !s.shared.expiring
    case LateAbort => At(s, t, Authorising) && s.shared.expiring
    case AbortRelease => At(s, t, Aborting)
    case Fork(c, pid) => At(s, t, Checked) && c !in s.procs && FreePid(s, pid)
    case ForkFails => At(s, t, Checked)
    case SpawnOk(c) => At(s, t, Spawning(c)) && c in s.procs && s.procs[c].st in {Execed, Zombie(false)}
    case SpawnErr(c) => At(s, t, Spawning(c)) && c in s.procs && s.procs[c].st == Zombie(true)
    case Register(c) => At(s, t, Returned(c)) && c in s.procs
    case RegisterFailed => At(s, t, SpawnFailed)
    case GuardDrop(c) => At(s, t, Guarded(c)) && c in s.procs
    case Reap(c) => At(s, t, Dropped(c)) && c in s.procs && s.procs[c].st.Zombie?
  }

  function CapApply(s: State, t: Tid, l: CapLabel): State
    requires CapEnabled(s, t, l)
  {
    match l
    case Authorise => s.(shared := Authorised(s.shared), caps := s.caps[t := Authorising])
    case LatePass => s.(caps := s.caps[t := Checked])
    case LateAbort => s.(caps := s.caps[t := Aborting])
    case AbortRelease => s.(shared := Released(s.shared), caps := s.caps - {t})
    case Fork(c, pid) =>
      s.(caps := s.caps[t := Spawning(c)],
         procs := s.procs[c := Proc(pid, Group(s.scanner, None, false), Primitive(t), s.shared.expiring, Fresh)])
    case ForkFails => s.(caps := s.caps[t := SpawnFailed])
    case SpawnOk(c) => s.(caps := s.caps[t := Returned(c)])
    case SpawnErr(c) =>
      s.(caps := s.caps[t := SpawnFailed], procs := s.procs[c := s.procs[c].(st := Reaped)])
    case Register(c) =>
      s.(shared := Registered(s.shared, s.procs[c].pid), caps := s.caps[t := Guarded(c)])
    case RegisterFailed => s.(shared := Released(s.shared), caps := s.caps - {t})
    case GuardDrop(c) =>
      s.(shared := Cleared(s.shared), caps := s.caps[t := Dropped(c)],
         procs := KillGroup(s.procs, s.procs[c].pid))
    case Reap(c) => s.(caps := s.caps - {t}, procs := s.procs[c := s.procs[c].(st := Reaped)])
  }

  /** A sweep may signal any live process below the scanner (`Containment` says which). */
  predicate Sweepable(s: State, id: Id) {
    id in s.procs && Alive(s.procs[id]) && s.procs[id].origin != Unrelated
  }

  function Killed(s: State, id: Id): State
    requires id in s.procs
  {
    s.(procs := s.procs[id := s.procs[id].(st := Zombie(false))])
  }

  predicate WatchEnabled(s: State, l: WatchLabel) {
    match l
    case Enter => s.w == WIdle && s.shared.phase == Running
    case WaitClear => s.w == WWaiting && !s.shared.inFlight
    case WaitTimeout => s.w == WWaiting
    case KillActive => s.w == WWaited
    case KillGivesUp => s.w == WWaited
    case Refuse => s.w == WActiveDone && s.ownGroup <= 1
    case SweepStart => s.w == WActiveDone && s.ownGroup > 1
    case SweepKill(id) => s.w == WSweeping && Sweepable(s, id)
    case SweepEnd => s.w == WSweeping
    case SweepPanic => s.w == WSweeping
    case OwnGroupKill => s.w in {WSwept, WPanicked}
    case Log => s.w == WFired
    case Leave => s.w in {WFired, WPanicFired, WRefused}
  }

  function WatchApply(s: State, l: WatchLabel): State
    requires WatchEnabled(s, l)
  {
    match l
    case Enter => s.(shared := ExpiryEntered(s.shared), w := WWaiting)
    case WaitClear => s.(w := WWaited)
    case WaitTimeout => s.(w := WWaited)
    case KillActive =>
      var target := ActiveTarget(s.shared);
      s.(w := WActiveDone, procs := if target > 0 then KillGroup(s.procs, target) else s.procs)
    case KillGivesUp => s.(w := WActiveDone)
    case Refuse => s.(w := WRefused)
    case SweepStart => s.(w := WSweeping)
    case SweepKill(id) => Killed(s, id)
    case SweepEnd => s.(w := WSwept)
    case SweepPanic => s.(w := WPanicked)
    case OwnGroupKill => s.(w := if s.w == WSwept then WFired else WPanicFired)
    case Log => s
    case Leave => s.(shared := ExpiryLeft(s.shared), w := WLeft)
  }

  predicate ExitEnabled(s: State, l: ExitLabel) {
    match l
    case ExitBegin => s.x == XIdle && s.shared.phase == Running
    case ExitWait => s.x == XIdle && s.shared.phase == Expiring
    case ExitNothing => s.x == XIdle && s.shared.phase in {Expired, Exiting}
    case ExitSweepKill(id) => s.x == XSweeping && Sweepable(s, id)
    case ExitSweepEnd => s.x == XSweeping
    case ExitWaitEnds => s.x == XWaiting
  }

  function ExitApply(s: State, l: ExitLabel): State
    requires ExitEnabled(s, l)
  {
    match l
    case ExitBegin => s.(shared := ExitBegun(s.shared), x := XSweeping)
    case ExitWait => s.(x := XWaiting)
    case ExitNothing => s.(x := XDone)
    case ExitSweepKill(id) => Killed(s, id)
    case ExitSweepEnd => s.(x := XDone)
    case ExitWaitEnds => s.(x := XDone)
  }

  predicate Is(s: State, id: Id, st: ProcState) { id in s.procs && s.procs[id].st == st }

  /** Any process may move into any existing group; real kernels allow it within one session only. */
  function GroupJoined(s: State, id: Id, member: Id): Group
    requires id in s.procs && member in s.procs
  {
    var into := s.procs[member].group;
    into.(joined := into.joined || Lineage(id, s.procs[id]) != Lineage(member, s.procs[member]))
  }

  ghost predicate OsEnabled(s: State, l: OsLabel) {
    match l
    case ChildRefuses(id) => Is(s, id, Fresh) && s.procs[id].sawExpiring
    case ChildReady(id) => Is(s, id, Fresh) && !s.procs[id].sawExpiring
    case ChildReports(id) => (Is(s, id, Fresh) && !s.procs[id].sawExpiring) || Is(s, id, Ready)
    case Exec(id) => Is(s, id, Ready)
    case Die(id) => id in s.procs && Alive(s.procs[id])
    case DescFork(parent, id, pid) =>
      && Is(s, parent, Execed) && s.procs[parent].origin != Unrelated
      && id !in s.procs && FreePid(s, pid)
    case NewGroup(id) => Is(s, id, Execed)
    case ReapOther(id) => id in s.procs && s.procs[id].st.Zombie? && !s.procs[id].origin.Primitive?
    case JoinGroup(id, member) => Is(s, id, Execed) && member in s.procs && s.procs[member].st != Reaped
    case Appear(id, pid, parent) =>
      && id !in s.procs && FreePid(s, pid)
      && (parent.Some? ==> Is(s, parent.value, Execed) && s.procs[parent.value].origin == Unrelated)
  }

  function OsApply(s: State, l: OsLabel): State
    requires OsEnabled(s, l)
  {
    match l
    case ChildRefuses(id) => s.(procs := s.procs[id := s.procs[id].(st := Zombie(false))])
    case ChildReady(id) => s.(procs := s.procs[id := s.procs[id].(st := Ready, group := OwnGroup(id, s.procs[id]))])
    case ChildReports(id) => s.(procs := s.procs[id := s.procs[id].(st := Zombie(true))])
    case Exec(id) => s.(procs := s.procs[id := s.procs[id].(st := Execed)])
    case Die(id) => s.(procs := s.procs[id := s.procs[id].(st := Zombie(false))])
    case DescFork(parent, id, pid) =>
      s.(procs := s.procs[id := Proc(pid, s.procs[parent].group,
                                     Descendant(Lineage(parent, s.procs[parent])), false, Execed)])
    case NewGroup(id) => s.(procs := s.procs[id := s.procs[id].(group := OwnGroup(id, s.procs[id]))])
    case JoinGroup(id, member) => s.(procs := s.procs[id := s.procs[id].(group := GroupJoined(s, id, member))])
    case ReapOther(id) => s.(procs := s.procs[id := s.procs[id].(st := Reaped)])
    case Appear(id, pid, parent) =>
      var group := if parent.Some? then s.procs[parent.value].group else Group(pid, Some(id), false);
      s.(procs := s.procs[id := Proc(pid, group, Unrelated, false, Execed)])
  }

  ghost predicate Enabled(s: State, l: Label) {
    match l
    case Cap(t, c) => CapEnabled(s, t, c)
    case Wd(w) => WatchEnabled(s, w)
    case Ex(x) => ExitEnabled(s, x)
    case Os(o) => OsEnabled(s, o)
  }

  function Apply(s: State, l: Label): State
    requires Enabled(s, l)
  {
    match l
    case Cap(t, c) => CapApply(s, t, c)
    case Wd(w) => WatchApply(s, w)
    case Ex(x) => ExitApply(s, x)
    case Os(o) => OsApply(s, o)
  }

  /** The state after the labels `ls`, or `None` when they are not a run from `s`. */
  ghost function Run(s: State, ls: seq<Label>): Option<State> {
    if ls == [] then Some(s)
    else
      var before := Run(s, ls[..|ls| - 1]);
      var l := ls[|ls| - 1];
      if before.Some? && Enabled(before.value, l) then Some(Apply(before.value, l)) else None
  }

  lemma {:induction false} RunPrefix(s: State, ls: seq<Label>, k: nat)
    requires Run(s, ls).Some? && k <= |ls|
    ensures Run(s, ls[..k]).Some?
    ensures k < |ls| ==> Enabled(Run(s, ls[..k]).value, ls[k])
                         && Run(s, ls[..k + 1]) == Some(Apply(Run(s, ls[..k]).value, ls[k]))
  {
    if k == |ls| {
      assert ls[..k] == ls;
    } else {
      var m := |ls| - 1;
      if k == m {
        assert ls[..k + 1] == ls;
      } else {
        RunPrefix(s, ls[..m], k);
        assert ls[..m][..k] == ls[..k] && ls[..m][..k + 1] == ls[..k + 1] && ls[..m][k] == ls[k];
      }
    }
  }

  lemma {:induction false} RunAppend(s: State, ls: seq<Label>, more: seq<Label>)
    requires Run(s, ls).Some?
    ensures Run(s, ls + more) == Run(Run(s, ls).value, more)
  {
    if more == [] {
      assert ls + more == ls;
    } else {
      var m := |more| - 1;
      RunAppend(s, ls, more[..m]);
      var all := ls + more;
      assert all[..|all| - 1] == ls + more[..m] && all[|all| - 1] == more[m];
    }
  }
}
