/** What every step of the watchdog protocol keeps. */
module WatchdogInvariant {
  import opened Options
  import opened WatchdogModel

  type Procs = map<Id, Proc>
  type Caps = map<Tid, Cap>

  /** `phase`, `EXPIRING` and the positions of the watchdog and of the exiting thread agree. */
  ghost predicate PhaseInv(s: State) {
    && s.scanner > 1
    && (s.shared.expiring <==> s.shared.phase in {Expiring, Expired})
    && (s.w == WIdle <==> s.shared.phase in {Running, Exiting})
    && (s.w == WLeft <==> s.shared.phase == Expired)
    && (s.x == XSweeping ==> s.shared.phase == Exiting)
    && (s.shared.phase == Exiting ==> s.x in {XSweeping, XDone})
    && (s.w == WRefused ==> s.ownGroup <= 1)
    && (s.w in {WSweeping, WSwept, WPanicked, WFired, WPanicFired} ==> s.ownGroup > 1)
  }

  /** A capture whose spawn is authorised and not yet registered. */
  predicate InFlight(c: Cap) { !c.Guarded? && !c.Dropped? }

  /** A capture that occupies the single slot: authorised or registered. */
  predicate Holds(c: Cap) { !c.Dropped? }

  predicate HasChild(c: Cap) { c.Spawning? || c.Returned? || c.Guarded? || c.Dropped? }

  /** The one capture that occupies the slot, if any. */
  ghost predicate SlotOf(sh: Shared, caps: Caps, procs: Procs, holder: Option<Tid>) {
    && (forall t :: t in caps && Holds(caps[t]) ==> holder == Some(t))
    && (match holder
        case None => !sh.inFlight && sh.pid == 0
        case Some(h) =>
          && h in caps && Holds(caps[h])
          && (if caps[h].Guarded? then
                !sh.inFlight && caps[h].child in procs && sh.pid == procs[caps[h].child].pid && sh.pid > 1
              else sh.inFlight && sh.pid == 0))
  }

  ghost predicate SlotInv(s: State) {
    exists holder :: SlotOf(s.shared, s.caps, s.procs, holder)
  }

  /** Every capture past its fork owns one unreaped primitive, and every unreaped primitive is owned. */
  ghost predicate Owns(caps: Caps, procs: Procs) {
    forall t :: t in caps && HasChild(caps[t]) ==>
      && caps[t].child in procs
      && procs[caps[t].child].origin == Primitive(t)
      && procs[caps[t].child].st != Reaped
      && (!caps[t].Spawning? ==> procs[caps[t].child].st in {Execed, Zombie(false)})
  }

  ghost predicate Owned(caps: Caps, procs: Procs) {
    forall id :: id in procs && procs[id].origin.Primitive? && procs[id].st != Reaped ==>
      var t := procs[id].origin.thread;
      t in caps && HasChild(caps[t]) && caps[t].child == id
  }

  ghost predicate ChildInv(s: State) { Owns(s.caps, s.procs) && Owned(s.caps, s.procs) }

  /** Pids of unreaped processes are distinct. */
  ghost predicate DistinctPids(procs: Procs) {
    forall a, b :: a in procs && b in procs && procs[a].st != Reaped && procs[b].st != Reaped ==>
      procs[a].pid == procs[b].pid ==> a == b
  }

  /** A group number that is an unreaped process's pid names the group that very process created. */
  ghost predicate GroupIdentity(procs: Procs) {
    forall c, d :: c in procs && d in procs && procs[c].st != Reaped && procs[d].st != Reaped
                   && procs[d].group.pgid == procs[c].pid ==>
      procs[d].group.leader == Some(c)
  }

  /**
    A group keeps its creator's pid as number; the one a primitive created holds its own lineage
    and what joined it.
   */
  ghost predicate GroupLineage(procs: Procs) {
    forall d :: d in procs && procs[d].group.leader.Some? ==>
      var c := procs[d].group.leader.value;
      && c in procs && procs[d].group.pgid == procs[c].pid
      && (procs[c].origin.Primitive? ==> Lineage(d, procs[d]) == c || procs[d].group.joined)
  }

  ghost predicate GroupInv(procs: Procs) { GroupIdentity(procs) && GroupLineage(procs) }

  ghost predicate ProcInv(scanner: int, procs: Procs) {
    && (forall id :: id in procs ==> procs[id].pid > 1 && procs[id].pid != scanner)
    && (forall c :: c in procs && procs[c].st in {Ready, Execed} ==> !procs[c].sawExpiring)
    && (forall c :: c in procs && procs[c].st in {Fresh, Ready} ==> procs[c].origin.Primitive?)
  }

  ghost predicate PidInv(s: State) {
    DistinctPids(s.procs) && GroupInv(s.procs) && ProcInv(s.scanner, s.procs)
  }

  /** A copy of EXPIRING is set only once EXPIRING is. */
  ghost predicate CopyInv(s: State) {
    forall id :: id in s.procs && s.procs[id].sawExpiring ==> s.shared.expiring
  }

  ghost predicate Inv(s: State) { PhaseInv(s) && SlotInv(s) && ChildInv(s) && PidInv(s) && CopyInv(s) }

  // ---------------------------------------------------------------- changes to the process table

  /** Processes only died, and nothing else about them changed. */
  ghost predicate Waned(procs: Procs, procs': Procs) {
    && procs'.Keys == procs.Keys
    && forall id :: id in procs ==>
         procs'[id] == procs[id] || (Alive(procs[id]) && procs'[id] == procs[id].(st := Zombie(false)))
  }

  lemma WaneKeepsPids(scanner: int, procs: Procs, procs': Procs)
    requires DistinctPids(procs) && GroupInv(procs) && ProcInv(scanner, procs) && Waned(procs, procs')
    ensures DistinctPids(procs') && GroupInv(procs') && ProcInv(scanner, procs')
  {
    forall a, b | a in procs' && b in procs' && procs'[a].st != Reaped && procs'[b].st != Reaped
      ensures procs'[a].pid == procs'[b].pid ==> a == b
      ensures procs'[b].group.pgid == procs'[a].pid ==> procs'[b].group.leader == Some(a)
    {
      assert a in procs && b in procs && procs[a].st != Reaped && procs[b].st != Reaped;
    }
  }

  lemma WaneKeepsChildren(caps: Caps, procs: Procs, procs': Procs)
    requires Owns(caps, procs) && Owned(caps, procs) && Waned(procs, procs')
    ensures Owns(caps, procs') && Owned(caps, procs')
  {}

  lemma WaneKeeps(s: State, s': State)
    requires SlotInv(s) && ChildInv(s) && PidInv(s)
    requires Waned(s.procs, s'.procs) && s'.caps == s.caps && s'.scanner == s.scanner
    requires s'.shared.inFlight == s.shared.inFlight && s'.shared.pid == s.shared.pid
    ensures SlotInv(s') && ChildInv(s') && PidInv(s')
  {
    WaneKeepsPids(s.scanner, s.procs, s'.procs);
    WaneKeepsChildren(s.caps, s.procs, s'.procs);
    var holder :| SlotOf(s.shared, s.caps, s.procs, holder);
    assert SlotOf(s'.shared, s'.caps, s'.procs, holder);
  }

  lemma KillGroupWanes(procs: Procs, group: int)
    ensures Waned(procs, KillGroup(procs, group))
  {}

  /** A process may hold this group: its own, the scanner's, or that of an unreaped process. */
  ghost predicate MayHold(s: State, id: Id, p: Proc) {
    || p.group == OwnGroup(id, p) || p.group == Group(s.scanner, None, false)
    || exists d :: d in s.procs && s.procs[d].st != Reaped
                   && p.group.pgid == s.procs[d].group.pgid && p.group.leader == s.procs[d].group.leader
                   && (p.group.joined
                       || (!s.procs[d].group.joined && Lineage(id, p) == Lineage(d, s.procs[d]))
                       || (p.origin == Unrelated && s.procs[d].origin == Unrelated && !s.procs[d].group.joined))
  }

  /** A process changes its state or its group. */
  lemma UpdateKeeps(s: State, id: Id, p: Proc)
    requires PidInv(s) && id in s.procs && s.procs[id].st != Reaped
    requires p.pid == s.procs[id].pid && p.origin == s.procs[id].origin && p.sawExpiring == s.procs[id].sawExpiring
    requires p.group == s.procs[id].group || MayHold(s, id, p)
    requires (p.st in {Ready, Execed} ==> !p.sawExpiring) && (p.st in {Fresh, Ready} ==> p.origin.Primitive?)
    ensures var procs' := s.procs[id := p]; DistinctPids(procs') && GroupInv(procs') && ProcInv(s.scanner, procs')
  {
    var procs' := s.procs[id := p];
    forall c | c in s.procs && s.procs[c].st != Reaped && p.group.pgid == s.procs[c].pid
      ensures p.group.leader == Some(c) {}
    assert GroupLineage(procs') by { LeaderOf(s, id, p); }
  }

  lemma LeaderOf(s: State, id: Id, p: Proc)
    requires PidInv(s) && (id in s.procs ==> p.origin == s.procs[id].origin)
    requires MayHold(s, id, p) || (id in s.procs && p.group == s.procs[id].group)
    ensures p.group.leader.Some? && p.group.leader.value != id ==>
      var c := p.group.leader.value;
      && c in s.procs && p.group.pgid == s.procs[c].pid
      && (s.procs[c].origin.Primitive? ==> Lineage(id, p) == c || p.group.joined)
    ensures p.group.leader == Some(id) && p.origin.Primitive? ==> Lineage(id, p) == id
    ensures p.group.leader == Some(id) && id in s.procs && p.pid == s.procs[id].pid ==> p.group.pgid == p.pid
    ensures p.group.leader == Some(id) && id !in s.procs ==> p.group.pgid == p.pid
  {}

  /** A process appears under a free pid. */
  lemma NewKeeps(s: State, id: Id, p: Proc)
    requires PidInv(s) && id !in s.procs && FreePid(s, p.pid) && MayHold(s, id, p)
    requires (p.st in {Ready, Execed} ==> !p.sawExpiring) && (p.st in {Fresh, Ready} ==> p.origin.Primitive?)
    ensures var procs' := s.procs[id := p]; DistinctPids(procs') && GroupInv(procs') && ProcInv(s.scanner, procs')
  {
    var procs' := s.procs[id := p];
    forall c | c in s.procs && s.procs[c].st != Reaped && p.group.pgid == s.procs[c].pid
      ensures p.group.leader == Some(c) {}
    assert GroupLineage(procs') by { LeaderOf(s, id, p); }
  }

  // ---------------------------------------------------------------- preservation, actor by actor

  lemma CapKeepsPhase(s: State, t: Tid, l: CapLabel)
    requires PhaseInv(s) && CapEnabled(s, t, l)
    ensures PhaseInv(CapApply(s, t, l))
  {}

  lemma CapKeepsSlot(s: State, t: Tid, l: CapLabel)
    requires SlotInv(s) && ChildInv(s) && PidInv(s) && CapEnabled(s, t, l)
    ensures SlotInv(CapApply(s, t, l))
  {
    var s' := CapApply(s, t, l);
    var holder :| SlotOf(s.shared, s.caps, s.procs, holder);
    var holder' := if l == Authorise then Some(t)
                   else if l == AbortRelease || l == RegisterFailed || l.GuardDrop? then None else holder;
    assert SlotOf(s'.shared, s'.caps, s'.procs, holder');
  }

  lemma CapKeepsChildren(s: State, t: Tid, l: CapLabel)
    requires ChildInv(s) && CapEnabled(s, t, l)
    ensures ChildInv(CapApply(s, t, l))
  {
    if l.GuardDrop? {
      KillGroupWanes(s.procs, s.procs[l.child].pid);
      WaneKeepsChildren(s.caps, s.procs, CapApply(s, t, l).procs);
    }
  }

  lemma CapKeepsPids(s: State, t: Tid, l: CapLabel)
    requires PidInv(s) && ChildInv(s) && CapEnabled(s, t, l)
    ensures PidInv(CapApply(s, t, l))
  {
    match l
    case Fork(c, pid) => NewKeeps(s, c, CapApply(s, t, l).procs[c]);
    case SpawnErr(c) => UpdateKeeps(s, c, s.procs[c].(st := Reaped));
    case Reap(c) => UpdateKeeps(s, c, s.procs[c].(st := Reaped));
    case GuardDrop(c) =>
      KillGroupWanes(s.procs, s.procs[c].pid);
      WaneKeepsPids(s.scanner, s.procs, CapApply(s, t, l).procs);
    case _ =>
  }

  lemma WatchKeeps(s: State, l: WatchLabel)
    requires Inv(s) && WatchEnabled(s, l)
    ensures var s' := WatchApply(s, l); PhaseInv(s') && SlotInv(s') && ChildInv(s') && PidInv(s')
  {
    if l.KillActive? { KillGroupWanes(s.procs, ActiveTarget(s.shared)); }
    WaneKeeps(s, WatchApply(s, l));
  }

  lemma ExitKeeps(s: State, l: ExitLabel)
    requires Inv(s) && ExitEnabled(s, l)
    ensures var s' := ExitApply(s, l); PhaseInv(s') && SlotInv(s') && ChildInv(s') && PidInv(s')
  {
    WaneKeeps(s, ExitApply(s, l));
  }

  lemma OsKeepsPids(s: State, l: OsLabel)
    requires PidInv(s) && OsEnabled(s, l)
    ensures PidInv(OsApply(s, l))
  {
    match l
    case DescFork(parent, id, pid) => NewKeeps(s, id, OsApply(s, l).procs[id]);
    case Appear(id, pid, parent) => NewKeeps(s, id, OsApply(s, l).procs[id]);
    case _ => UpdateKeeps(s, l.id, OsApply(s, l).procs[l.id]);
  }

  lemma OsKeepsChildren(s: State, l: OsLabel)
    requires ChildInv(s) && OsEnabled(s, l)
    ensures ChildInv(OsApply(s, l))
  {}

  lemma OsKeepsSlot(s: State, l: OsLabel)
    requires SlotInv(s) && OsEnabled(s, l)
    ensures SlotInv(OsApply(s, l))
  {
    var s' := OsApply(s, l);
    var holder :| SlotOf(s.shared, s.caps, s.procs, holder);
    assert SlotOf(s'.shared, s'.caps, s'.procs, holder);
  }

  lemma StepKeepsCopies(s: State, l: Label)
    requires CopyInv(s) && Enabled(s, l)
    ensures CopyInv(Apply(s, l))
  {}

  lemma StepKeeps(s: State, l: Label)
    requires Inv(s) && Enabled(s, l)
    ensures Inv(Apply(s, l))
  {
    StepKeepsCopies(s, l);
    match l
    case Cap(t, c) =>
      CapKeepsPhase(s, t, c);
      CapKeepsSlot(s, t, c);
      CapKeepsChildren(s, t, c);
      CapKeepsPids(s, t, c);
    case Wd(w) => WatchKeeps(s, w);
    case Ex(x) => ExitKeeps(s, x);
    case Os(o) =>
      OsKeepsPids(s, o);
      OsKeepsChildren(s, o);
      OsKeepsSlot(s, o);
  }

  /** Every reachable state satisfies the invariant. */
  lemma {:induction false} Reachable(s: State, ls: seq<Label>)
    requires Initial(s) && Run(s, ls).Some?
    ensures Inv(Run(s, ls).value)
  {
    if ls == [] {
      assert SlotOf(s.shared, s.caps, s.procs, None);
    } else {
      var m := |ls| - 1;
      RunPrefix(s, ls, m);
      Reachable(s, ls[..m]);
      StepKeeps(Run(s, ls[..m]).value, ls[m]);
    }
  }
}
