/** What the watchdog protocol guarantees over whole runs. */
module WatchdogTheorems {
  import opened Options
  import opened WatchdogModel
  import opened WatchdogInvariant

  /** The state in which label `k` of the run is taken (the last state for `k == |ls|`). */
  ghost function StateAt(s: State, ls: seq<Label>, k: nat): State
    requires Run(s, ls).Some? && k <= |ls|
  {
    RunPrefix(s, ls, k);
    Run(s, ls[..k]).value
  }

  lemma StateStep(s: State, ls: seq<Label>, k: nat)
    requires Initial(s) && Run(s, ls).Some? && k < |ls|
    ensures Inv(StateAt(s, ls, k)) && Enabled(StateAt(s, ls, k), ls[k])
    ensures StateAt(s, ls, k + 1) == Apply(StateAt(s, ls, k), ls[k])
  {
    RunPrefix(s, ls, k);
    Reachable(s, ls[..k]);
  }

  // ---------------------------------------------------------------- no exec after expiry

  /** `id` can no longer exec: it does not exist yet or carries the flag, or it is past its exec. */
  ghost predicate NeverExecs(s: State, id: Id) {
    && s.shared.expiring
    && (id in s.procs ==> s.procs[id].sawExpiring || s.procs[id].st !in {Fresh, Ready})
  }

  lemma NeverExecsStep(s: State, l: Label, id: Id)
    requires ProcInv(s.scanner, s.procs) && NeverExecs(s, id) && Enabled(s, l)
    ensures l != Os(Exec(id)) && NeverExecs(Apply(s, l), id)
  {}

  lemma ProcsGrow(s: State, l: Label)
    requires Enabled(s, l)
    ensures s.procs.Keys <= Apply(s, l).procs.Keys
  {}

  /** Captures and processes never move the phase or the watchdog. */
  lemma OthersKeepPhase(s: State, l: Label)
    requires Enabled(s, l) && (l.Cap? || l.Os?)
    ensures var s' := Apply(s, l);
      && s'.shared.phase == s.shared.phase && s'.shared.expiring == s.shared.expiring
      && s'.w == s.w && s'.ownGroup == s.ownGroup
  {}

  lemma FlagsStay(s: State, l: Label)
    requires Enabled(s, l)
    ensures Apply(s, l).ownGroup == s.ownGroup
    ensures s.shared.expiring ==> Apply(s, l).shared.expiring
    ensures s.shared.phase != Running ==> Apply(s, l).shared.phase != Running
  {
    hide CapApply, CapEnabled, OsApply, OsEnabled;
    if l.Cap? || l.Os? { OthersKeepPhase(s, l); }
  }

  lemma {:induction false} NeverExecsRun(s: State, ls: seq<Label>, j: nat, k: nat, id: Id)
    requires Initial(s) && Run(s, ls).Some? && j <= k < |ls|
    requires NeverExecs(StateAt(s, ls, j), id)
    ensures ls[k] != Os(Exec(id))
    decreases k - j
  {
    hide Apply, Enabled, NeverExecs, ProcInv;
    StateStep(s, ls, j);
    NeverExecsStep(StateAt(s, ls, j), ls[j], id);
    if j < k { NeverExecsRun(s, ls, j + 1, k, id); }
  }

  lemma {:induction false} ProcsPersist(s: State, ls: seq<Label>, j: nat, k: nat, id: Id)
    requires Initial(s) && Run(s, ls).Some? && j <= k <= |ls| && id in StateAt(s, ls, j).procs
    ensures id in StateAt(s, ls, k).procs
    decreases k - j
  {
    hide Apply, Enabled, Inv;
    if j < k {
      StateStep(s, ls, j);
      ProcsGrow(StateAt(s, ls, j), ls[j]);
      ProcsPersist(s, ls, j + 1, k, id);
    }
  }

  lemma {:induction false} ExpiryPersists(s: State, ls: seq<Label>, j: nat, k: nat)
    requires Initial(s) && Run(s, ls).Some? && j <= k <= |ls|
    ensures StateAt(s, ls, j).shared.expiring ==> StateAt(s, ls, k).shared.expiring
    ensures StateAt(s, ls, j).shared.phase != Running ==> StateAt(s, ls, k).shared.phase != Running
    decreases k - j
  {
    hide Apply, Enabled, Inv;
    if j < k {
      StateStep(s, ls, j);
      FlagsStay(StateAt(s, ls, j), ls[j]);
      ExpiryPersists(s, ls, j + 1, k);
    }
  }

  /** A primitive forked after the expiry began never execs, whatever the bounded wait did. */
  lemma NoExecAfterExpiry(s: State, ls: seq<Label>, i: nat, j: nat, t: Tid, child: Id, pid: int)
    requires Initial(s) && Run(s, ls).Some? && i < j < |ls|
    requires ls[i] == Wd(Enter) && ls[j] == Cap(t, Fork(child, pid))
    ensures Os(Exec(child)) !in ls
  {
    hide Inv;
    StateStep(s, ls, i);
    ExpiryPersists(s, ls, i + 1, j);
    StateStep(s, ls, j);
    forall k | 0 <= k < |ls| ensures ls[k] != Os(Exec(child)) {
      if k < j {
        StateStep(s, ls, k);
        if ls[k] == Os(Exec(child)) { ProcsPersist(s, ls, k, j, child); }
      } else {
        NeverExecsRun(s, ls, j, k, child);
      }
    }
  }

  /**
    Every primitive that execs after the sweep started was already there when it started: forked
    by a capture that is still in flight, an unreaped child of the scanner, before its exec.
   */
  lemma ExecsExistAtSweep(s: State, ls: seq<Label>, m: nat, k: nat, child: Id)
    requires Initial(s) && Run(s, ls).Some? && m < k < |ls|
    requires ls[m] == Wd(SweepStart) && ls[k] == Os(Exec(child))
    ensures child in StateAt(s, ls, m).procs
    ensures StateAt(s, ls, m).procs[child].origin.Primitive?
    ensures StateAt(s, ls, m).procs[child].st in {Fresh, Ready}
    ensures At(StateAt(s, ls, m), StateAt(s, ls, m).procs[child].origin.thread, Spawning(child))
    ensures StateAt(s, ls, m).shared.inFlight
    ensures forall i, t, pid :: 0 <= i < |ls| && ls[i] == Cap(t, Fork(child, pid)) ==> Wd(Enter) !in ls[..i]
  {
    StateStep(s, ls, m);
    if NeverExecs(StateAt(s, ls, m), child) { NeverExecsRun(s, ls, m, k, child); }
    forall i, t, pid | 0 <= i < |ls| && ls[i] == Cap(t, Fork(child, pid)) ensures Wd(Enter) !in ls[..i] {
      if Wd(Enter) in ls[..i] {
        var e :| 0 <= e < i && ls[e] == Wd(Enter);
        NoExecAfterExpiry(s, ls, e, i, t, child, pid);
      }
    }
  }

  // ---------------------------------------------------------------- pids and groups

  /** The processes a step kills. */
  ghost function Victims(s: State, l: Label): set<Id>
    requires Enabled(s, l)
  {
    set id | id in s.procs && Alive(s.procs[id])
             && (id in Apply(s, l).procs ==> !Alive(Apply(s, l).procs[id]))
  }

  /** A registered pid names a child the scanner has not reaped, and only one capture registered it. */
  lemma RegisteredPidIsUnreaped(s: State, ls: seq<Label>)
    requires Initial(s) && Run(s, ls).Some?
    ensures var e := Run(s, ls).value;
      e.shared.pid != 0 ==>
        exists t, c :: At(e, t, Guarded(c)) && c in e.procs && e.procs[c].st != Reaped
                       && e.procs[c].pid == e.shared.pid && e.procs[c].origin == Primitive(t)
                       && (forall d :: d in e.procs && e.procs[d].st != Reaped && e.procs[d].pid == e.shared.pid
                                       ==> d == c)
  {
    Reachable(s, ls);
    var e := Run(s, ls).value;
    var holder :| SlotOf(e.shared, e.caps, e.procs, holder);
    if e.shared.pid != 0 {
      var t := holder.value;
      var c := e.caps[t].child;
      assert At(e, t, Guarded(c));
    }
  }

  /** Both kinds of group kill hit exactly the live processes with the registered pid as group number. */
  lemma KillTarget(s: State, l: Label)
    requires PhaseInv(s) && SlotInv(s) && Enabled(s, l)
    requires l == Wd(KillActive) || (l.Cap? && l.c.GuardDrop?)
    ensures forall id :: id in Victims(s, l) <==>
      s.shared.pid != 0 && id in s.procs && Alive(s.procs[id]) && s.procs[id].group.pgid == s.shared.pid
  {
    var holder :| SlotOf(s.shared, s.caps, s.procs, holder);
  }

  ghost predicate Descends(s: State, id: Id, c: Id) {
    id in s.procs && s.procs[id].origin != Unrelated && Lineage(id, s.procs[id]) == c
  }

  /** The live members of the group that process `c` created. */
  ghost function LiveMembers(s: State, c: Id): set<Id> {
    set id | id in s.procs && Alive(s.procs[id]) && s.procs[id].group.leader == Some(c)
  }

  /**
    With nothing registered the step kills nothing; otherwise it kills exactly the live members of
    the group that the one registered, unreaped primitive created itself, each of which descends from
    that primitive or came in by a join.
   */
  ghost predicate KillsOneGroup(s: State, l: Label)
    requires Enabled(s, l)
  {
    && (s.shared.pid == 0 ==> Victims(s, l) == {})
    && (s.shared.pid != 0 ==>
          exists t, c :: At(s, t, Guarded(c)) && c in s.procs
                         && s.procs[c].st != Reaped && s.procs[c].pid == s.shared.pid
                         && Victims(s, l) == LiveMembers(s, c)
                         && forall id :: id in LiveMembers(s, c) ==> Descends(s, id, c) || s.procs[id].group.joined)
  }

  lemma KillStaysInGroup(s: State, l: Label)
    requires PhaseInv(s) && SlotInv(s) && ChildInv(s) && PidInv(s) && Enabled(s, l)
    requires l == Wd(KillActive) || (l.Cap? && l.c.GuardDrop?)
    ensures KillsOneGroup(s, l)
  {
    KillTarget(s, l);
    var holder :| SlotOf(s.shared, s.caps, s.procs, holder);
    hide Apply, Enabled, PhaseInv, ProcInv, DistinctPids, Victims;
    if s.shared.pid != 0 {
      var t := holder.value;
      var c := s.caps[t].child;
      assert At(s, t, Guarded(c)) && s.procs[c].st != Reaped && s.procs[c].origin.Primitive?;
      forall id ensures id in Victims(s, l) <==> id in LiveMembers(s, c) {}
      assert Victims(s, l) == LiveMembers(s, c);
    }
  }

  /** Label `k` moves a process into a group of another lineage. */
  ghost predicate ForeignJoin(s: State, ls: seq<Label>, k: nat)
    requires Run(s, ls).Some? && k < |ls|
  {
    var e := StateAt(s, ls, k);
    && ls[k].Os? && ls[k].o.JoinGroup? && ls[k].o.id in e.procs && ls[k].o.member in e.procs
    && Lineage(ls[k].o.id, e.procs[ls[k].o.id]) != Lineage(ls[k].o.member, e.procs[ls[k].o.member])
  }

  ghost predicate SomeoneJoined(s: State) { exists id :: id in s.procs && s.procs[id].group.joined }

  lemma JoinedStep(s: State, l: Label)
    requires Enabled(s, l) && !SomeoneJoined(s) && SomeoneJoined(Apply(s, l))
    ensures l.Os? && l.o.JoinGroup? && l.o.id in s.procs && l.o.member in s.procs
    ensures Lineage(l.o.id, s.procs[l.o.id]) != Lineage(l.o.member, s.procs[l.o.member])
  {}

  lemma {:induction false} JoinedNeedsForeignJoin(s: State, ls: seq<Label>)
    requires Initial(s) && Run(s, ls).Some? && SomeoneJoined(Run(s, ls).value)
    ensures exists k :: 0 <= k < |ls| && ForeignJoin(s, ls, k)
  {
    hide Apply, Enabled, SomeoneJoined;
    if ls == [] {
      NobodyJoinedYet(s);
    } else {
      var m := |ls| - 1;
      RunPrefix(s, ls, m);
      var e := Run(s, ls[..m]).value;
      if SomeoneJoined(e) {
        JoinedNeedsForeignJoin(s, ls[..m]);
        var k :| 0 <= k < m && ForeignJoin(s, ls[..m], k);
        assert ls[..m][..k] == ls[..k];
        assert ForeignJoin(s, ls, k);
      } else {
        JoinedStep(e, ls[m]);
        assert ForeignJoin(s, ls, m);
      }
    }
  }

  lemma NobodyJoinedYet(s: State)
    requires Initial(s)
    ensures !SomeoneJoined(s)
  {}

  /**
    A group kill by the guard or by the watchdog never hits a recycled group: it kills exactly the
    live members of the group one unreaped primitive created itself. They are that primitive's own
    lineage, unless some process had moved into a group of another lineage.
   */
  lemma GroupKillsStayInLineage(s: State, ls: seq<Label>, l: Label)
    requires Initial(s) && Run(s, ls).Some? && Enabled(Run(s, ls).value, l)
    requires l == Wd(KillActive) || (l.Cap? && l.c.GuardDrop?)
    ensures var e := Run(s, ls).value;
      && KillsOneGroup(e, l)
      && ((forall k :: 0 <= k < |ls| ==> !ForeignJoin(s, ls, k)) ==>
            forall t, c, id :: At(e, t, Guarded(c)) && id in Victims(e, l) ==> Descends(e, id, c))
  {
    hide Apply, Enabled, Run, SlotInv, ChildInv, PidInv, PhaseInv, CopyInv, Victims, ForeignJoin, Descends;
    Reachable(s, ls);
    var e := Run(s, ls).value;
    KillStaysInGroup(e, l);
    OneGuard(s, ls);
    if (forall k :: 0 <= k < |ls| ==> !ForeignJoin(s, ls, k)) && SomeoneJoined(e) { JoinedNeedsForeignJoin(s, ls); }
  }

  lemma OneGuard(s: State, ls: seq<Label>)
    requires Initial(s) && Run(s, ls).Some?
    ensures var e := Run(s, ls).value;
      forall t, u, c, d :: At(e, t, Guarded(c)) && At(e, u, Guarded(d)) ==> t == u && c == d
  {
    Reachable(s, ls);
    var e := Run(s, ls).value;
    var holder :| SlotOf(e.shared, e.caps, e.procs, holder);
  }

  lemma RunExtends(s: State, ls: seq<Label>, l: Label)
    requires Run(s, ls).Some? && Enabled(Run(s, ls).value, l)
    ensures Run(s, ls + [l]) == Some(Apply(Run(s, ls).value, l))
  {
    assert (ls + [l])[..|ls|] == ls;
  }

  /** A run that registers primitive 0 of capture 0, which leads the group of its own pid. */
  lemma RegisteredRun(s: State) returns (ls: seq<Label>)
    requires Initial(s)
    ensures Run(s, ls).Some?
    ensures var e := Run(s, ls).value; var pid := s.scanner + 1;
      && e.scanner == s.scanner && At(e, 0, Guarded(0)) && e.shared.pid == pid
      && e.procs == map[0 := Proc(pid, Group(pid, Some(0), false), Primitive(0), false, Execed)]
  {
    ls := Spawned(s);
    hide Run;
    var e := Run(s, ls).value;
    RunExtends(s, ls, Cap(0, SpawnOk(0)));
    ls := ls + [Cap(0, SpawnOk(0))];
    RunExtends(s, ls, Cap(0, Register(0)));
    ls := ls + [Cap(0, Register(0))];
  }

  lemma Spawned(s: State) returns (ls: seq<Label>)
    requires Initial(s)
    ensures Run(s, ls).Some?
    ensures var e := Run(s, ls).value; var pid := s.scanner + 1;
      && e.scanner == s.scanner && At(e, 0, Spawning(0))
      && e.procs == map[0 := Proc(pid, Group(pid, Some(0), false), Primitive(0), false, Execed)]
  {
    var pid := s.scanner + 1;
    ls := [];
    EmptyRun(s);
    hide Run;
    RunExtends(s, ls, Cap(0, Authorise));
    ls := ls + [Cap(0, Authorise)];
    RunExtends(s, ls, Cap(0, LatePass));
    ls := ls + [Cap(0, LatePass)];
    RunExtends(s, ls, Cap(0, Fork(0, pid)));
    ls := ls + [Cap(0, Fork(0, pid))];
    RunExtends(s, ls, Os(ChildReady(0)));
    ls := ls + [Os(ChildReady(0))];
    RunExtends(s, ls, Os(Exec(0)));
    ls := ls + [Os(Exec(0))];
  }

  /** The lineage bound is sharp: a run in which an unrelated process joins the registered group and dies with it. */
  lemma JoinerDiesWithTheGroup(s: State) returns (ls: seq<Label>)
    requires Initial(s)
    ensures Run(s, ls).Some? && |ls| > 0 && ForeignJoin(s, ls, |ls| - 1)
    ensures var e := Run(s, ls).value;
      && Enabled(e, Cap(0, GuardDrop(0))) && 1 in Victims(e, Cap(0, GuardDrop(0)))
      && 1 in e.procs && e.procs[1].origin == Unrelated
  {
    ls := RegisteredRun(s);
    hide Run;
    var appear, join := Os(Appear(1, s.scanner + 2, None)), Os(JoinGroup(1, 0));
    RunExtends(s, ls, appear);
    ls := ls + [appear];
    RunExtends(s, ls, join);
    assert (ls + [join])[..|ls|] == ls;
    ls := ls + [join];
  }

  /** A signal of either sweep kills one live process below the scanner, and touches nothing else. */
  lemma SweepsKillBelowTheScanner(s: State, l: Label, id: Id)
    requires Enabled(s, l) && (l == Wd(SweepKill(id)) || l == Ex(ExitSweepKill(id)))
    ensures id in s.procs && s.procs[id].origin != Unrelated && Victims(s, l) == {id}
    ensures Apply(s, l).shared == s.shared && Apply(s, l).caps == s.caps
    ensures forall d :: d in s.procs && d != id ==> d in Apply(s, l).procs && Apply(s, l).procs[d] == s.procs[d]
  {}

  /** Both sweeps may signal whatever is alive below the scanner, so either can leave nothing of it alive. */
  lemma SweepsReachEverything(s: State, id: Id)
    requires id in s.procs && Alive(s.procs[id]) && s.procs[id].origin != Unrelated
    ensures s.w == WSweeping ==> Enabled(s, Wd(SweepKill(id)))
    ensures s.x == XSweeping ==> Enabled(s, Ex(ExitSweepKill(id)))
  {}

  // ---------------------------------------------------------------- the single slot

  /** The slot is taken exactly while one capture is authorised or registered, and never in both ways. */
  lemma OneCaptureInTheSlot(s: State, ls: seq<Label>)
    requires Initial(s) && Run(s, ls).Some?
    ensures var e := Run(s, ls).value;
      && !(e.shared.inFlight && e.shared.pid != 0)
      && (forall t, u :: t in e.caps && u in e.caps && Holds(e.caps[t]) && Holds(e.caps[u]) ==> t == u)
      && (e.shared.inFlight <==> exists t :: t in e.caps && InFlight(e.caps[t]))
      && (e.shared.pid != 0 <==> exists t :: t in e.caps && e.caps[t].Guarded?)
  {
    Reachable(s, ls);
    var e := Run(s, ls).value;
    var holder :| SlotOf(e.shared, e.caps, e.procs, holder);
  }

  /** No capture is about to fork and no forked child is still before its exec. */
  ghost predicate Quiet(s: State) {
    && s.shared.phase != Running
    && (forall t :: t in s.caps ==> s.caps[t] !in {Authorising, Checked})
    && (forall id :: id in s.procs ==> s.procs[id].st !in {Fresh, Ready})
  }

  lemma QuietCap(s: State, t: Tid, c: CapLabel)
    requires Quiet(s) && CapEnabled(s, t, c)
    ensures Quiet(CapApply(s, t, c)) && !c.Fork?
  {}

  lemma QuietOs(s: State, o: OsLabel)
    requires Quiet(s) && OsEnabled(s, o)
    ensures Quiet(OsApply(s, o)) && !o.Exec?
  {}

  lemma QuietStep(s: State, l: Label)
    requires Quiet(s) && Enabled(s, l)
    ensures Quiet(Apply(s, l)) && !(l.Os? && l.o.Exec?) && !(l.Cap? && l.c.Fork?)
  {
    hide CapApply, CapEnabled, OsApply, OsEnabled;
    if l.Cap? { QuietCap(s, l.t, l.c); }
    if l.Os? { QuietOs(s, l.o); }
  }

  lemma {:induction false} QuietRun(s: State, ls: seq<Label>, j: nat, k: nat)
    requires Initial(s) && Run(s, ls).Some? && j <= k < |ls| && Quiet(StateAt(s, ls, j))
    ensures !(ls[k].Os? && ls[k].o.Exec?) && !(ls[k].Cap? && ls[k].c.Fork?)
    decreases k - j
  {
    StateStep(s, ls, j);
    QuietStep(StateAt(s, ls, j), ls[j]);
    if j < k { QuietRun(s, ls, j + 1, k); }
  }

  /** How a primitive's position records what the run did with it. */
  ghost predicate Recorded(s: State, ls: seq<Label>, id: Id) {
    id in s.procs && s.procs[id].origin.Primitive? ==>
      var t := s.procs[id].origin.thread;
      && (At(s, t, Dropped(id)) ==> Cap(t, GuardDrop(id)) in ls)
      && (s.procs[id].st in {Fresh, Ready, Zombie(true)} ==> Os(Exec(id)) !in ls)
      && (s.procs[id].st == Reaped ==> Cap(t, GuardDrop(id)) in ls || Os(Exec(id)) !in ls)
  }

  lemma RecordedCap(s: State, ls: seq<Label>, t: Tid, c: CapLabel, id: Id)
    requires ChildInv(s) && CapEnabled(s, t, c) && Recorded(s, ls, id)
    requires id !in s.procs ==> Os(Exec(id)) !in ls
    ensures Recorded(CapApply(s, t, c), ls + [Cap(t, c)], id)
    ensures id !in CapApply(s, t, c).procs ==> Os(Exec(id)) !in ls + [Cap(t, c)]
  {}

  lemma RecordedOther(s: State, ls: seq<Label>, l: Label, id: Id)
    requires !l.Cap? && Enabled(s, l) && Recorded(s, ls, id)
    requires id !in s.procs ==> Os(Exec(id)) !in ls
    ensures Recorded(Apply(s, l), ls + [l], id)
    ensures id !in Apply(s, l).procs ==> Os(Exec(id)) !in ls + [l]
  {}

  lemma {:induction false} RecordedRun(s: State, ls: seq<Label>, id: Id)
    requires Initial(s) && Run(s, ls).Some?
    ensures Recorded(Run(s, ls).value, ls, id)
    ensures id !in Run(s, ls).value.procs ==> Os(Exec(id)) !in ls
  {
    if ls != [] {
      var m := |ls| - 1;
      RunPrefix(s, ls, m);
      Reachable(s, ls[..m]);
      RecordedRun(s, ls[..m], id);
      hide PhaseInv, SlotInv, Owns, Owned, PidInv, CopyInv, Recorded;
      assert ls[..m] + [ls[m]] == ls;
      var e, l := Run(s, ls[..m]).value, ls[m];
      if l.Cap? { RecordedCap(e, ls[..m], l.t, l.c, id); } else { RecordedOther(e, ls[..m], l, id); }
    }
  }

  /**
    When the wait ends with `in_flight` clear, no later step forks or execs a primitive, and every
    primitive forked so far is registered, or its group was killed by its guard, or it never ran.
   */
  lemma ClearWaitSeesEverything(s: State, ls: seq<Label>, i: nat)
    requires Initial(s) && Run(s, ls).Some? && i < |ls| && ls[i] == Wd(WaitClear)
    ensures forall k :: i <= k < |ls| ==> !(ls[k].Os? && ls[k].o.Exec?) && !(ls[k].Cap? && ls[k].c.Fork?)
    ensures var e := StateAt(s, ls, i);
      forall id :: id in e.procs && e.procs[id].origin.Primitive? ==>
        || (e.shared.pid == e.procs[id].pid && At(e, e.procs[id].origin.thread, Guarded(id)))
        || Cap(e.procs[id].origin.thread, GuardDrop(id)) in ls[..i]
        || Os(Exec(id)) !in ls
  {
    StateStep(s, ls, i);
    var e := StateAt(s, ls, i);
    var holder :| SlotOf(e.shared, e.caps, e.procs, holder);
    assert Quiet(e);
    forall k | i <= k < |ls| ensures !(ls[k].Os? && ls[k].o.Exec?) && !(ls[k].Cap? && ls[k].c.Fork?) {
      QuietRun(s, ls, i, k);
    }
    forall id | id in e.procs && e.procs[id].origin.Primitive?
      ensures
        || (e.shared.pid == e.procs[id].pid && At(e, e.procs[id].origin.thread, Guarded(id)))
        || Cap(e.procs[id].origin.thread, GuardDrop(id)) in ls[..i]
        || Os(Exec(id)) !in ls
    {
      RunPrefix(s, ls, i);
      RecordedRun(s, ls[..i], id);
      if Os(Exec(id)) !in ls[..i] {
        forall k | 0 <= k < |ls| ensures ls[k] != Os(Exec(id)) {
          if k < i { assert ls[k] == ls[..i][k]; }
        }
      }
    }
  }

  // ---------------------------------------------------------------- exit

  /** A capture that, left alone, still leads to an exec. */
  ghost predicate Pending(s: State) {
    exists t :: t in s.caps && (
      || s.caps[t] in {Authorising, Checked}
      || (s.caps[t].Spawning? && s.caps[t].child in s.procs && s.procs[s.caps[t].child].st in {Fresh, Ready}))
  }

  lemma FreshProcess(s: State) returns (id: Id, pid: int)
    ensures id !in s.procs && FreePid(s, pid)
  {
    id, pid := Above(s.procs, s.procs.Keys);
    if pid <= s.scanner { pid := s.scanner + 1; }
  }

  lemma Above(procs: map<Id, Proc>, ids: set<Id>) returns (id: Id, pid: int)
    requires ids <= procs.Keys
    ensures pid > 1 && forall d :: d in ids ==> d < id && procs[d].pid < pid && procs[d].group.pgid < pid
  {
    id, pid := 0, 2;
    if ids != {} {
      var d :| d in ids;
      id, pid := Above(procs, ids - {d});
      if id <= d { id := d + 1; }
      if pid <= procs[d].pid { pid := procs[d].pid + 1; }
      if pid <= procs[d].group.pgid { pid := procs[d].group.pgid + 1; }
    }
  }

  lemma RunOne(s: State, l: Label, more: seq<Label>)
    requires Enabled(s, l)
    ensures Run(s, [l] + more) == Run(Apply(s, l), more)
  {
    assert [l][..0] == [];
    assert Run(s, [l]) == Some(Apply(s, l));
    RunAppend(s, [l], more);
  }

  /** From a spawn under way, the child can reach its exec. */
  lemma SpawnLeadsToExec(s: State, child: Id) returns (more: seq<Label>)
    requires child in s.procs && s.procs[child].st in {Fresh, Ready} && !s.procs[child].sawExpiring
    ensures Run(s, more).Some? && Os(Exec(child)) in more
    decreases if s.procs[child].st == Ready then 0 else 1
  {
    if s.procs[child].st == Ready {
      more := [Os(Exec(child))];
      RunOne(s, Os(Exec(child)), []);
      assert more == [Os(Exec(child))] + [];
    } else {
      hide Run;
      var rest := SpawnLeadsToExec(Apply(s, Os(ChildReady(child))), child);
      more := [Os(ChildReady(child))] + rest;
      RunOne(s, Os(ChildReady(child)), rest);
    }
  }

  lemma PendingLeadsToExec(s: State, t: Tid) returns (more: seq<Label>, child: Id)
    requires Inv(s) && s.shared.phase == Exiting && t in s.caps
    requires
      || s.caps[t] in {Authorising, Checked}
      || (s.caps[t].Spawning? && s.caps[t].child in s.procs && s.procs[s.caps[t].child].st in {Fresh, Ready})
    ensures Run(s, more).Some? && Os(Exec(child)) in more
    decreases if s.caps[t] == Authorising then 2 else if s.caps[t] == Checked then 1 else 0
  {
    if s.caps[t].Spawning? {
      child := s.caps[t].child;
      more := SpawnLeadsToExec(s, child);
    } else {
      var l: Label;
      if s.caps[t] == Authorising {
        l := Cap(t, LatePass);
      } else {
        var id, pid := FreshProcess(s);
        l := Cap(t, Fork(id, pid));
      }
      StepKeeps(s, l);
      var rest;
      rest, child := PendingLeadsToExec(Apply(s, l), t);
      more := [l] + rest;
      RunOne(s, l, rest);
    }
  }

  lemma NotPendingIsQuiet(s: State)
    requires Inv(s) && s.shared.phase != Running && !Pending(s)
    ensures Quiet(s)
  {}

  /**
    `Running` -> `Exiting` does not set EXPIRING: once the main thread is leaving, some
    continuation still execs a primitive exactly when another capture was on its way to one.
   */
  lemma ExecAfterExitIffPending(s: State, ls: seq<Label>)
    requires Initial(s) && Run(s, ls).Some? && Run(s, ls).value.shared.phase == Exiting
    ensures Pending(Run(s, ls).value) <==>
      exists more, child :: Run(s, ls + more).Some? && Os(Exec(child)) in more
  {
    hide Apply, Enabled, PhaseInv, SlotInv, ChildInv, PidInv, CopyInv, Quiet;
    Reachable(s, ls);
    var e := Run(s, ls).value;
    if Pending(e) {
      var t :| t in e.caps && (
        || e.caps[t] in {Authorising, Checked}
        || (e.caps[t].Spawning? && e.caps[t].child in e.procs && e.procs[e.caps[t].child].st in {Fresh, Ready}));
      var more, child := PendingLeadsToExec(e, t);
      RunAppend(s, ls, more);
      assert Run(s, ls + more).Some? && Os(Exec(child)) in more;
    } else {
      NotPendingIsQuiet(e);
      forall more, child | Run(s, ls + more).Some? ensures Os(Exec(child)) !in more {
        var all := ls + more;
        assert all[..|ls|] == ls;
        assert StateAt(s, all, |ls|) == e;
        forall k | 0 <= k < |more| ensures more[k] != Os(Exec(child)) {
          QuietRun(s, all, |ls|, |ls| + k);
          assert all[|ls| + k] == more[k];
        }
      }
    }
  }

  /** A run in which an exec follows the exit: the capture was authorised before, on another thread. */
  lemma ExecFollowsExit(s: State) returns (before: seq<Label>, after: seq<Label>)
    requires Initial(s)
    ensures Run(s, before).Some? && Run(s, before).value.shared.phase == Exiting && Pending(Run(s, before).value)
    ensures before == [Cap(0, Authorise), Ex(ExitBegin)]
    ensures Run(s, before + after).Some? && exists child :: Os(Exec(child)) in after
  {
    before := [Cap(0, Authorise), Ex(ExitBegin)];
    var s1 := Apply(s, Cap(0, Authorise));
    var s2 := Apply(s1, Ex(ExitBegin));
    assert before == [Cap(0, Authorise)] + [Ex(ExitBegin)] && [Ex(ExitBegin)] == [Ex(ExitBegin)] + [];
    RunOne(s, Cap(0, Authorise), [Ex(ExitBegin)]);
    RunOne(s1, Ex(ExitBegin), []);
    EmptyRun(s2);
    assert At(s2, 0, Authorising);
    Reachable(s, before);
    var child;
    after, child := PendingLeadsToExec(s2, 0);
    RunAppend(s, before, after);
  }

  /** In production the main thread runs the captures itself, so none is open when it leaves. */
  lemma MainThreadExitIsFinal(s: State, ls: seq<Label>, i: nat)
    requires Initial(s) && Run(s, ls).Some? && i < |ls| && ls[i] == Ex(ExitBegin)
    requires StateAt(s, ls, i).caps == map[]
    ensures forall k :: i < k < |ls| ==> !(ls[k].Os? && ls[k].o.Exec?) && !(ls[k].Cap? && ls[k].c.Fork?)
    ensures var e := StateAt(s, ls, i);
      forall id :: id in e.procs && e.procs[id].origin.Primitive? ==> e.procs[id].st == Reaped
  {
    StateStep(s, ls, i);
    assert Quiet(StateAt(s, ls, i + 1));
    forall k | i < k < |ls| ensures !(ls[k].Os? && ls[k].o.Exec?) && !(ls[k].Cap? && ls[k].c.Fork?) {
      QuietRun(s, ls, i + 1, k);
    }
  }

  // ---------------------------------------------------------------- phases and the kill sequence

  /** The phases a run goes through, without repeats. */
  ghost function PhaseHistory(s: State, ls: seq<Label>): seq<Phase>
    requires Run(s, ls).Some?
  {
    if ls == [] then [s.shared.phase]
    else
      var m := |ls| - 1;
      RunPrefix(s, ls, m);
      var h := PhaseHistory(s, ls[..m]);
      if Run(s, ls).value.shared.phase == Run(s, ls[..m]).value.shared.phase then h
      else h + [Run(s, ls).value.shared.phase]
  }

  ghost function HistoryOf(p: Phase): seq<Phase> {
    match p
    case Running => [Running]
    case Expiring => [Running, Expiring]
    case Expired => [Running, Expiring, Expired]
    case Exiting => [Running, Exiting]
  }

  lemma PhaseStep(s: State, l: Label)
    requires PhaseInv(s) && Enabled(s, l)
    ensures var q := Apply(s, l).shared.phase;
      q == s.shared.phase || HistoryOf(q) == HistoryOf(s.shared.phase) + [q]
  {
    hide CapApply, CapEnabled, OsApply, OsEnabled;
    if l.Cap? || l.Os? { OthersKeepPhase(s, l); }
  }

  lemma {:induction false} PhasesMoveForward(s: State, ls: seq<Label>)
    requires Initial(s) && Run(s, ls).Some?
    ensures PhaseHistory(s, ls) == HistoryOf(Run(s, ls).value.shared.phase)
    ensures Run(s, ls).value.shared.expiring <==> Run(s, ls).value.shared.phase in {Expiring, Expired}
  {
    hide Apply, Enabled, SlotInv, ChildInv, PidInv, CopyInv;
    Reachable(s, ls);
    if ls != [] {
      var m := |ls| - 1;
      RunPrefix(s, ls, m);
      Reachable(s, ls[..m]);
      PhaseStep(Run(s, ls[..m]).value, ls[m]);
      PhasesMoveForward(s, ls[..m]);
    }
  }

  /** How often the run took each step of the expiry, by the position of the watchdog. */
  ghost predicate Counted(s: State, ls: seq<Label>) {
    var past := s.w == WLeft && s.ownGroup > 1;
    var n := multiset(ls);
    && n[Wd(Enter)] == (if s.shared.phase in {Expiring, Expired} then 1 else 0)
    && n[Ex(ExitBegin)] == (if s.shared.phase == Exiting then 1 else 0)
    && n[Wd(SweepStart)] == (if past || s.w in {WSweeping, WSwept, WPanicked, WFired, WPanicFired} then 1 else 0)
    && n[Wd(SweepEnd)] + n[Wd(SweepPanic)] == (if past || s.w in {WSwept, WPanicked, WFired, WPanicFired} then 1 else 0)
    && n[Wd(OwnGroupKill)] == (if past || s.w in {WFired, WPanicFired} then 1 else 0)
  }

  lemma CountedStep(s: State, ls: seq<Label>, l: Label)
    requires PhaseInv(s) && Enabled(s, l) && Counted(s, ls)
    ensures Counted(Apply(s, l), ls + [l])
  {
    hide CapApply, CapEnabled, OsApply, OsEnabled;
    assert multiset(ls + [l]) == multiset(ls) + multiset{l};
    if l.Cap? || l.Os? { OthersKeepPhase(s, l); }
  }

  lemma CountedStart(s: State)
    requires Initial(s)
    ensures Counted(s, [])
  {}

  lemma {:induction false} CountedRun(s: State, ls: seq<Label>)
    requires Initial(s) && Run(s, ls).Some?
    ensures Counted(Run(s, ls).value, ls)
  {
    hide Apply, Enabled, PhaseInv, SlotInv, ChildInv, PidInv, CopyInv, Counted;
    if ls == [] {
      CountedStart(s);
    } else {
      var m := |ls| - 1;
      RunPrefix(s, ls, m);
      Reachable(s, ls[..m]);
      CountedRun(s, ls[..m]);
      assert ls[..m] + [ls[m]] == ls;
      CountedStep(Run(s, ls[..m]).value, ls[..m], ls[m]);
    }
  }

  /** An expiry and an exit sweep never both happen, and neither begins twice. */
  lemma ExpiryExcludesExit(s: State, ls: seq<Label>)
    requires Initial(s) && Run(s, ls).Some?
    ensures multiset(ls)[Wd(Enter)] + multiset(ls)[Ex(ExitBegin)] <= 1
  {
    CountedRun(s, ls);
  }

  /**
    With a valid group the own-group kill fires at most once, after the sweep started and ended
    (or panicked), before any log and before `Expired`; by `Expired` it has fired. With an
    invalid group neither the sweep nor the kill ever happens.
   */
  lemma OwnGroupKillOrder(s: State, ls: seq<Label>, k: nat)
    requires Initial(s) && Run(s, ls).Some? && k < |ls|
    ensures multiset(ls)[Wd(OwnGroupKill)] <= 1
    ensures s.ownGroup <= 1 ==> multiset(ls)[Wd(OwnGroupKill)] == 0 && multiset(ls)[Wd(SweepStart)] == 0
    ensures ls[k] == Wd(OwnGroupKill) ==>
      && Wd(SweepStart) in ls[..k] && (Wd(SweepEnd) in ls[..k] || Wd(SweepPanic) in ls[..k])
      && Wd(Log) !in ls[..k] && Wd(Leave) !in ls[..k]
    ensures ls[k] == Wd(Log) ==> Wd(OwnGroupKill) in ls[..k]
    ensures ls[k] == Wd(Leave) && s.ownGroup > 1 ==> Wd(OwnGroupKill) in ls[..k]
    ensures s.ownGroup > 1 && Run(s, ls).value.shared.phase == Expired ==> Wd(OwnGroupKill) in ls
  {
    hide Apply, SlotInv, ChildInv, PidInv, CopyInv;
    RunPrefix(s, ls, k);
    StateStep(s, ls, k);
    CountedRun(s, ls[..k]);
    CountedRun(s, ls);
    Reachable(s, ls);
    SameGroup(s, ls);
    SameGroup(s, ls[..k]);
    if ls[k] == Wd(OwnGroupKill) && (Wd(Log) in ls[..k] || Wd(Leave) in ls[..k]) {
      var j :| 0 <= j < k && ls[j] in {Wd(Log), Wd(Leave)};
      StateStep(s, ls, j);
      assert WatchEnabled(StateAt(s, ls, j), ls[j].w);
      PastTheKill(s, ls, j, k);
    }
  }

  lemma {:induction false} SameGroup(s: State, ls: seq<Label>)
    requires Run(s, ls).Some?
    ensures Run(s, ls).value.ownGroup == s.ownGroup
  {
    hide Apply, Enabled;
    if ls != [] {
      RunPrefix(s, ls, |ls| - 1);
      FlagsStay(Run(s, ls[..|ls| - 1]).value, ls[|ls| - 1]);
      SameGroup(s, ls[..|ls| - 1]);
    }
  }

  predicate Spent(w: Watch) { w in {WFired, WPanicFired, WRefused, WLeft} }

  lemma SpentStep(s: State, l: Label)
    requires PhaseInv(s) && Spent(s.w) && Enabled(s, l)
    ensures l != Wd(OwnGroupKill) && Spent(Apply(s, l).w)
  {}

  /** Once the watchdog fired, refused or left, it never gets back to a pending own-group kill. */
  lemma {:induction false} PastTheKill(s: State, ls: seq<Label>, j: nat, k: nat)
    requires Initial(s) && Run(s, ls).Some? && j <= k < |ls|
    requires Spent(StateAt(s, ls, j).w)
    ensures ls[k] != Wd(OwnGroupKill)
    decreases k - j
  {
    hide Apply, Enabled, SlotInv, ChildInv, PidInv, CopyInv, Spent;
    StateStep(s, ls, j);
    SpentStep(StateAt(s, ls, j), ls[j]);
    if j < k { PastTheKill(s, ls, j + 1, k); }
  }

  /** How many steps of its own an expiry still needs. */
  function Rank(w: Watch): nat {
    match w
    case WWaiting => 6
    case WWaited => 5
    case WActiveDone => 4
    case WSweeping => 3
    case WSwept => 2
    case WPanicked => 2
    case WFired => 1
    case WPanicFired => 1
    case WRefused => 1
    case WIdle => 0
    case WLeft => 0
  }

  /** The watchdog's steps other than a single signal of the bounded sweep and a log line. */
  predicate Progress(l: Label) { l.Wd? && !l.w.SweepKill? && !l.w.Log? }

  function ProgressSteps(ls: seq<Label>): nat {
    if ls == [] then 0 else ProgressSteps(ls[..|ls| - 1]) + if Progress(ls[|ls| - 1]) then 1 else 0
  }

  lemma ExpiryStep(s: State, l: Label)
    requires PhaseInv(s) && s.shared.phase in {Expiring, Expired} && Enabled(s, l)
    ensures var s' := Apply(s, l);
      && s'.shared.phase in {Expiring, Expired}
      && Rank(s'.w) + (if Progress(l) then 1 else 0) <= Rank(s.w)
  {
    hide CapApply, CapEnabled, OsApply, OsEnabled;
    if l.Cap? || l.Os? { OthersKeepPhase(s, l); }
  }

  lemma ExpiryCanStep(s: State) returns (w: WatchLabel)
    requires PhaseInv(s) && s.shared.phase == Expiring
    ensures Progress(Wd(w)) && WatchEnabled(s, w)
  {
    w := match s.w
      case WWaiting => WaitTimeout
      case WWaited => KillGivesUp
      case WActiveDone => if s.ownGroup <= 1 then Refuse else SweepStart
      case WSweeping => SweepEnd
      case WSwept => OwnGroupKill
      case WPanicked => OwnGroupKill
      case _ => Leave;
  }

  lemma {:induction false} ExpiryRanks(s: State, ls: seq<Label>, more: seq<Label>)
    requires Initial(s) && Run(s, ls).Some? && Run(s, ls).value.shared.phase == Expiring
    requires Run(s, ls + more).Some?
    ensures var e := Run(s, ls + more).value;
      && e.shared.phase in {Expiring, Expired}
      && ProgressSteps(more) + Rank(e.w) <= Rank(Run(s, ls).value.w)
  {
    hide Apply, Enabled, SlotInv, ChildInv, PidInv, CopyInv, PhaseInv, Rank;
    if more == [] {
      assert ls + more == ls;
    } else {
      var m := |more| - 1;
      var all := ls + more;
      assert all[..|all| - 1] == ls + more[..m] && all[|all| - 1] == more[m];
      RunPrefix(s, all, |all| - 1);
      ExpiryRanks(s, ls, more[..m]);
      Reachable(s, ls + more[..m]);
      ExpiryStep(Run(s, ls + more[..m]).value, more[m]);
    }
  }

  /**
    Under every schedule a begun expiry completes: whatever the captures, the exiting thread and the
    processes do, until `Expired` the watchdog always has a step of its own to take, it takes at most
    six of them, and when it has no more to take the scanner is `Expired`, with the own-group kill
    fired exactly once for a valid group.
   */
  lemma EveryScheduleCompletes(s: State, ls: seq<Label>, more: seq<Label>)
    requires Initial(s) && Run(s, ls).Some? && Run(s, ls).value.shared.phase == Expiring
    requires Run(s, ls + more).Some?
    ensures var e := Run(s, ls + more).value;
      && ProgressSteps(more) + Rank(e.w) <= Rank(Run(s, ls).value.w) <= 6
      && e.shared.phase in {Expiring, Expired}
      && (e.shared.phase == Expiring ==> exists w :: Progress(Wd(w)) && WatchEnabled(e, w))
      && (e.shared.phase == Expired ==> multiset(ls + more)[Wd(OwnGroupKill)] == (if s.ownGroup > 1 then 1 else 0))
  {
    hide Apply, Enabled, SlotInv, ChildInv, PidInv, CopyInv;
    ExpiryRanks(s, ls, more);
    Reachable(s, ls + more);
    var e := Run(s, ls + more).value;
    if e.shared.phase == Expiring { var w := ExpiryCanStep(e); }
    CountedRun(s, ls + more);
    SameGroup(s, ls + more);
  }

  /** The rest of an expiry when the sweep panics. */
  function Finish(w: Watch, ownGroup: int): seq<Label>
    decreases match w case WWaiting => 6 case WWaited => 5 case WActiveDone => 4 case WSweeping => 3
                      case WSwept => 2 case WPanicked => 2 case _ => 1
  {
    match w
    case WWaiting => [Wd(WaitTimeout)] + Finish(WWaited, ownGroup)
    case WWaited => [Wd(KillGivesUp)] + Finish(WActiveDone, ownGroup)
    case WActiveDone =>
      if ownGroup <= 1 then [Wd(Refuse), Wd(Leave)] else [Wd(SweepStart)] + Finish(WSweeping, ownGroup)
    case WSweeping => [Wd(SweepPanic)] + Finish(WPanicked, ownGroup)
    case WSwept => [Wd(OwnGroupKill), Wd(Leave)]
    case WPanicked => [Wd(OwnGroupKill), Wd(Leave)]
    case WIdle => []
    case WLeft => []
    case _ => [Wd(Leave)]
  }

  lemma {:induction false} FinishRuns(s: State)
    requires PhaseInv(s) && s.shared.phase == Expiring
    ensures Run(s, Finish(s.w, s.ownGroup)).Some?
    ensures Run(s, Finish(s.w, s.ownGroup)).value.shared.phase == Expired
    decreases |Finish(s.w, s.ownGroup)|
  {
    hide CapApply, CapEnabled, OsApply, OsEnabled, ExitApply, ExitEnabled, Run;
    var ls := Finish(s.w, s.ownGroup);
    assert Enabled(s, ls[0]);
    assert ls == [ls[0]] + ls[1..];
    RunOne(s, ls[0], ls[1..]);
    var s' := Apply(s, ls[0]);
    if s'.shared.phase == Expiring {
      assert ls[1..] == Finish(s'.w, s'.ownGroup);
      FinishRuns(s');
    } else {
      assert ls[1..] == [];
      EmptyRun(s');
    }
  }

  lemma EmptyRun(s: State)
    ensures Run(s, []) == Some(s)
  {}

  /**
    A begun expiry never depends on anyone else: from every reachable `Expiring` state the
    watchdog's own steps, with every wait timing out, the registry lock never obtained and the
    sweep panicking, still lead to `Expired`, with the own-group kill fired for a valid group.
   */
  lemma ExpiryAlwaysCompletes(s: State, ls: seq<Label>)
    requires Initial(s) && Run(s, ls).Some? && Run(s, ls).value.shared.phase == Expiring
    ensures var e := Run(s, ls).value;
      var all := ls + Finish(e.w, e.ownGroup);
      && Run(s, all).Some? && Run(s, all).value.shared.phase == Expired
      && multiset(all)[Wd(OwnGroupKill)] == (if s.ownGroup > 1 then 1 else 0)
  {
    Reachable(s, ls);
    var e := Run(s, ls).value;
    FinishRuns(e);
    RunAppend(s, ls, Finish(e.w, e.ownGroup));
    var all := ls + Finish(e.w, e.ownGroup);
    CountedRun(s, all);
    Reachable(s, all);
    SameGroup(s, all);
  }
}
