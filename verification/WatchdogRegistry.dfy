/**
  The shared record as the object the scanner mutates: one method per critical section, each
  proved to be the transition of the protocol model.
 */
module WatchdogRegistry {
  import opened Options
  import opened WatchdogModel

  datatype Admission = Admitted | AlreadyExpired | AnotherActive

  datatype Leaving = SweepLeftovers | AwaitWatchdog | AlreadyHandled

  class Registry {
    var phase: Phase
    var inFlight: bool
    var pid: int
    var expiring: bool

    function View(): Shared
      reads this
    {
      Shared(phase, inFlight, pid, expiring)
    }

    constructor ()
      ensures View() == Shared(Running, false, 0, false)
    {
      phase, inFlight, pid, expiring := Running, false, 0, false;
    }

    /** The first critical section of `capture`: authorised only while `Running` and free. */
    method Authorise() returns (r: Admission)
      modifies this
      ensures r == Admitted <==> MayAuthorise(old(View()))
      ensures r == AlreadyExpired <==> old(phase) != Running
      ensures View() == if r == Admitted then Authorised(old(View())) else old(View())
      ensures forall s: State, t: Tid {:trigger CapEnabled(s, t, CapLabel.Authorise)}
        | s.shared == old(View()) && t !in s.caps ::
        && (r == Admitted <==> CapEnabled(s, t, CapLabel.Authorise))
        && (r == Admitted ==> CapApply(s, t, CapLabel.Authorise).shared == View())
    {
      if phase != Running { return AlreadyExpired; }
      if pid != 0 || inFlight { return AnotherActive; }
      inFlight := true;
      return Admitted;
    }

    /** The late check: a capture that resumes after the watchdog began gives its slot back. */
    method LateCheck() returns (go: bool)
      modifies this
      ensures go <==> !old(expiring)
      ensures View() == if go then old(View()) else Released(old(View()))
      ensures forall s: State, t: Tid {:trigger At(s, t, Authorising)}
        | s.shared == old(View()) && At(s, t, Authorising) ::
        && (go <==> CapEnabled(s, t, LatePass)) && (!go <==> CapEnabled(s, t, LateAbort))
        && (go ==> CapApply(s, t, LatePass).shared == View())
        && (!go ==> CapApply(CapApply(s, t, LateAbort), t, AbortRelease).shared == View())
    {
      if expiring {
        inFlight := false;
        return false;
      }
      return true;
    }

    /** After `spawn`: the slot passes from "in flight" to the registered pid, or is freed. */
    method FinishSpawn(spawned: Option<int>) returns (expiredMeanwhile: bool)
      modifies this
      ensures View() == if spawned.Some? then Registered(old(View()), spawned.value) else Released(old(View()))
      ensures expiredMeanwhile <==> spawned.Some? && old(phase) != Running
      ensures forall s: State, t: Tid, c: Id {:trigger CapEnabled(s, t, Register(c))}
        | s.shared == old(View()) && CapEnabled(s, t, Register(c)) && spawned == Some(s.procs[c].pid) ::
        CapApply(s, t, Register(c)).shared == View()
      ensures forall s: State, t: Tid {:trigger CapEnabled(s, t, RegisterFailed)}
        | s.shared == old(View()) && CapEnabled(s, t, RegisterFailed) && spawned.None? ::
        CapApply(s, t, RegisterFailed).shared == View()
    {
      inFlight := false;
      if spawned.None? { return false; }
      pid := spawned.value;
      return phase != Running;
    }

    /** `Guard::drop` up to the reap: under one lock it signals the group of its own child and clears the pid. */
    method DropGuard(child: int) returns (signalled: int)
      modifies this
      ensures View() == Cleared(old(View())) && signalled == child
      ensures forall s: State, t: Tid, c: Id {:trigger CapEnabled(s, t, GuardDrop(c))}
        | s.shared == old(View()) && CapEnabled(s, t, GuardDrop(c)) && s.procs[c].pid == child ::
        var s' := CapApply(s, t, GuardDrop(c)); s'.shared == View() && s'.procs == KillGroup(s.procs, signalled)
    {
      signalled := child;
      pid := 0;
    }

    /** `ExpiryScope::enter`. */
    method EnterExpiry() returns (entered: bool)
      modifies this
      ensures entered <==> old(phase) == Running
      ensures View() == if entered then ExpiryEntered(old(View())) else old(View())
      ensures forall s: State {:trigger WatchEnabled(s, Enter)} | s.shared == old(View()) && s.w == WIdle ::
        && (entered <==> WatchEnabled(s, Enter)) && (entered ==> WatchApply(s, Enter).shared == View())
    {
      ghost var before := View();
      forall s: State | s.shared == before && s.w == WIdle
        ensures WatchEnabled(s, Enter) <==> before.phase == Running
        ensures before.phase == Running ==> WatchApply(s, Enter).shared == ExpiryEntered(before) {}
      if phase != Running { return false; }
      phase := Expiring;
      expiring := true;
      return true;
    }

    /** `ExpiryScope::drop`. */
    method LeaveExpiry()
      modifies this
      ensures View() == ExpiryLeft(old(View()))
      ensures forall s: State {:trigger WatchEnabled(s, Leave)} | s.shared == old(View()) && WatchEnabled(s, Leave) ::
        WatchApply(s, Leave).shared == View()
    {
      phase := Expired;
    }

    /** `finish_process`: only the first leave of a `Running` scanner sweeps. */
    method FinishProcess() returns (r: Leaving)
      modifies this
      ensures r == SweepLeftovers <==> old(phase) == Running
      ensures r == AwaitWatchdog <==> old(phase) == Expiring
      ensures View() == if r == SweepLeftovers then ExitBegun(old(View())) else old(View())
      ensures forall s: State {:trigger ExitEnabled(s, ExitBegin)} | s.shared == old(View()) && s.x == XIdle ::
        && (r == SweepLeftovers <==> ExitEnabled(s, ExitBegin)) && (r == AwaitWatchdog <==> ExitEnabled(s, ExitWait))
        && (r == AlreadyHandled <==> ExitEnabled(s, ExitNothing))
        && (r == SweepLeftovers ==> ExitApply(s, ExitBegin).shared == View())
    {
      ghost var before := View();
      forall s: State | s.shared == before && s.x == XIdle
        ensures ExitEnabled(s, ExitBegin) <==> before.phase == Running
        ensures ExitEnabled(s, ExitWait) <==> before.phase == Expiring
        ensures ExitEnabled(s, ExitNothing) <==> before.phase in {Expired, Exiting}
        ensures before.phase == Running ==> ExitApply(s, ExitBegin).shared == ExitBegun(before) {}
      match phase
      case Running =>
        phase := Exiting;
        return SweepLeftovers;
      case Expiring =>
        return AwaitWatchdog;
      case Expired =>
        return AlreadyHandled;
      case Exiting =>
        return AlreadyHandled;
    }

    /** The group `kill_active_group` signals: none unless the scanner is expiring. */
    method ActiveGroup() returns (target: int)
      ensures target == ActiveTarget(View())
      ensures phase in {Running, Exiting} ==> target == 0
      ensures forall s: State {:trigger WatchEnabled(s, KillActive)}
        | s.shared == View() && WatchEnabled(s, KillActive) ::
        WatchApply(s, KillActive).procs == if target > 0 then KillGroup(s.procs, target) else s.procs
    {
      match phase
      case Running => return 0;
      case Exiting => return 0;
      case _ => return if pid > 0 then pid else 0;
    }
  }
}
