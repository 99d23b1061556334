/** What holds over every run of the export service. */
module ExportTheorems {
  import opened Options
  import opened ExportModel

  ghost predicate Distinct(xs: seq<nat>) { forall i, j :: 0 <= i < j < |xs| ==> xs[i] != xs[j] }

  /** Every unfinished supervisor is listed, and at most two are. */
  ghost predicate JobsInv(svc: Service, runs: map<RunId, Run>) {
    && Distinct(svc.jobs) && |svc.jobs| <= WORK_LIMIT
    && (forall r :: r in runs && Unfinished(runs[r]) ==> r in svc.jobs)
    && (forall r :: r in svc.jobs ==> r in runs)
  }

  /** Who still holds what: a live worker both references, the supervisor each until its own drop. */
  ghost predicate RefInv(runs: map<RunId, Run>) {
    forall r :: r in runs ==>
      && (runs[r].worker ==> runs[r].sup in {Waiting, TimedOut})
      && (Worker in runs[r].permit <==> runs[r].worker) && (Worker in runs[r].admission <==> runs[r].worker)
      && (Supervising in runs[r].permit <==> runs[r].sup in {Waiting, TimedOut, Reaped})
      && (Supervising in runs[r].admission <==> Unfinished(runs[r]))
  }

  /** Free permits and permits held by runs always make two. */
  ghost predicate PermitInv(s: State) { s.svc.permits + |Holders(s)| == WORK_LIMIT }

  /** An unfinished run is its session's active admission, and a waiting reply belongs to the active run. */
  ghost predicate SessionInv(sessions: map<SessId, Session>, runs: map<RunId, Run>) {
    && (forall r :: r in runs && Unfinished(runs[r]) ==>
          && runs[r].sess in sessions
          && sessions[runs[r].sess].active.Some?
          && sessions[runs[r].sess].active.value.gen == runs[r].gen
          && sessions[runs[r].sess].active.value.request == runs[r].request)
    && (forall x :: x in sessions && sessions[x].active.Some? ==> sessions[x].active.value.gen <= sessions[x].gen)
    && (forall x :: x in sessions && sessions[x].slot.Some? && sessions[x].active.Some? ==>
          sessions[x].slot.value.gen == sessions[x].active.value.gen
          && sessions[x].active.value.published)
    && (forall r :: r in runs && runs[r].sess in sessions ==> runs[r].gen <= sessions[runs[r].sess].gen)
    && (forall r :: r in runs ==> runs[r].sess in sessions)
  }

  /** Runs of one session have distinct generations. */
  ghost predicate GenerationInv(runs: map<RunId, Run>) {
    forall q, r :: q in runs && r in runs && q != r && runs[q].sess == runs[r].sess ==> runs[q].gen != runs[r].gen
  }

  /** The service still lists the session of every unfinished run, unless it is closed; after a stop all are. */
  ghost predicate ListedInv(s: State) {
    && (forall r :: r in s.runs && Unfinished(s.runs[r]) && s.runs[r].sess in s.sessions
                    && !s.sessions[s.runs[r].sess].closed ==>
          s.runs[r].sess in s.svc.weak && !s.svc.stopped)
    && (s.svc.stopped ==> s.svc.semaphoreClosed)
    && (forall x :: x in s.sessions && s.sessions[x].closed && s.sessions[x].active.Some? ==>
          s.sessions[x].active.value.cancelled)
  }

  ghost predicate Inv(s: State) {
    && JobsInv(s.svc, s.runs) && RefInv(s.runs) && PermitInv(s)
    && SessionInv(s.sessions, s.runs) && GenerationInv(s.runs) && ListedInv(s)
  }

  // ---------------------------------------------------------------- preservation

  /** What the drops of an exiting worker and of an ending supervisor amount to: only the supervisor's are ever last. */
  lemma DropsAre(s: State, l: Label)
    requires RefInv(s.runs) && Enabled(s, l)
    ensures l.WorkerExit? ==>
      Apply(s, l) == s.(runs := s.runs[l.run :=
        s.runs[l.run].(worker := false, permit := {Supervising}, admission := {Supervising})])
    ensures l.DropPermit? ==>
      Apply(s, l) == s.(svc := s.svc.(permits := s.svc.permits + 1),
                        runs := s.runs[l.run := s.runs[l.run].(sup := PermitDropped, permit := {})])
    ensures l.Finish? ==>
      Apply(s, l) == s.(runs := s.runs[l.run := s.runs[l.run].(sup := Finished, admission := {})],
                        sessions := s.sessions[s.runs[l.run].sess :=
                          RunDropped(s.sessions[s.runs[l.run].sess], s.runs[l.run].gen)])
  {
    if l.WorkerExit? || l.DropPermit? || l.Finish? {
      var run := Apply(s, l).runs[l.run];
      RefsAre(s.runs[l.run], s.runs, l.run);
      assert {Worker, Supervising} - {Worker} == {Supervising} && {Supervising} - {Supervising} == {};
      assert Apply(s, l).runs == s.runs[l.run := run];
    }
  }

  lemma RefsAre(run: Run, runs: map<RunId, Run>, r: RunId)
    requires RefInv(runs) && r in runs && run == runs[r]
    ensures run.worker ==> run.permit == {Worker, Supervising} == run.admission
    ensures !run.worker ==>
      && run.permit == (if run.sup in {Waiting, TimedOut, Reaped} then {Supervising} else {})
      && run.admission == (if Unfinished(run) then {Supervising} else {})
  {
    OwnersAre(run.permit);
    OwnersAre(run.admission);
  }

  lemma OwnersAre(os: set<Owner>)
    ensures os == (if Worker in os then {Worker} else {}) + (if Supervising in os then {Supervising} else {})
  {
    forall o | o in os ensures o == Worker || o == Supervising {
      match o case Worker => case Supervising =>
    }
  }

  lemma StepKeepsRefs(s: State, l: Label)
    requires RefInv(s.runs) && Enabled(s, l)
    ensures RefInv(Apply(s, l).runs)
  {
    DropsAre(s, l);
    hide WorkerGone, PermitDrop, AdmissionDrop, ServiceRefusal, AdmitRefusal, AdmitTried, Pruned, Started, Stopped,
         OpenOf, HeldByRuns, ClosedAll, CancelledBy, ClosedSession, RunDropped, MayPublish, Published;
  }

  lemma StepKeepsJobs(s: State, l: Label)
    requires JobsInv(s.svc, s.runs) && RefInv(s.runs) && Enabled(s, l)
    ensures JobsInv(Apply(s, l).svc, Apply(s, l).runs)
  {
    DropsAre(s, l);
    hide RefInv, WorkerGone, PermitDrop, AdmissionDrop;
    if l.Start? {
      var jobs := Pruned(s.svc, Running(s), OpenOf(s, l.held)).jobs;
      assert |jobs| < WORK_LIMIT;
    }
  }

  /** One run starts or stops to hold its permit. */
  lemma HoldersWith(s: State, s': State, r: RunId, run: Run)
    requires s'.runs == s.runs[r := run] && HoldsPermit(run) && (r in s.runs ==> !HoldsPermit(s.runs[r]))
    ensures Holders(s') == Holders(s) + {r} && r !in Holders(s)
  {}

  lemma StepKeepsPermits(s: State, l: Label)
    requires PermitInv(s) && RefInv(s.runs) && Enabled(s, l)
    ensures PermitInv(Apply(s, l))
  {
    hide Holders;
    var s' := Apply(s, l);
    if l.Start? {
      hide AdmitRefusal, AdmitTried, OpenOf, HeldByRuns;
      HoldersWith(s, s', l.run, s'.runs[l.run]);
    } else if l.DropPermit? {
      DropsAre(s, l);
      RefsAre(s.runs[l.run], s.runs, l.run);
      hide Apply, Enabled;
      assert s.runs == s'.runs[l.run := s.runs[l.run]];
      HoldersWith(s', s, l.run, s.runs[l.run]);
    } else {
      HoldersStay(s, l);
    }
  }

  lemma HoldersStay(s: State, l: Label)
    requires RefInv(s.runs) && Enabled(s, l) && !l.Start? && !l.DropPermit?
    ensures Holders(Apply(s, l)) == Holders(s) && Apply(s, l).svc.permits == s.svc.permits
  {
    DropsAre(s, l);
    hide WorkerGone, PermitDrop, AdmissionDrop, AdmitRefusal, AdmitTried, OpenOf, HeldByRuns, ClosedAll, CancelledBy,
         ClosedSession, RunDropped, MayPublish, Published;
  }

  /** A change that keeps the admission and at most drops, or for the active run fills, the slot. */
  ghost predicate Touched(before: Session, after: Session) {
    && after.gen == before.gen && after.active.Some? == before.active.Some?
    && (after.active.Some? ==>
          && after.active.value.gen == before.active.value.gen
          && after.active.value.request == before.active.value.request
          && (before.active.value.published ==> after.active.value.published))
    && (after.slot.Some? ==>
          || (before.slot.Some? && after.slot.value.gen == before.slot.value.gen)
          || (after.active.Some? && after.slot.value.gen == after.active.value.gen && after.active.value.published))
  }

  lemma TouchKeeps(sessions: map<SessId, Session>, sessions': map<SessId, Session>, runs: map<RunId, Run>)
    requires SessionInv(sessions, runs) && sessions'.Keys == sessions.Keys
    requires forall x :: x in sessions ==> Touched(sessions[x], sessions'[x])
    ensures SessionInv(sessions', runs)
  {}

  /** Runs only advance: nothing finished becomes unfinished. */
  lemma AdvanceKeeps(sessions: map<SessId, Session>, runs: map<RunId, Run>, r: RunId, run: Run)
    requires SessionInv(sessions, runs) && r in runs
    requires run.sess == runs[r].sess && run.gen == runs[r].gen && run.request == runs[r].request
    requires Unfinished(run) ==> Unfinished(runs[r])
    ensures SessionInv(sessions, runs[r := run])
  {}

  lemma StartKeepsSessions(s: State, l: Label)
    requires SessionInv(s.sessions, s.runs) && Enabled(s, l) && l.Start?
    ensures SessionInv(Apply(s, l).sessions, Apply(s, l).runs)
  {
    hide Pruned, ServiceRefusal, Started, OpenOf, HeldByRuns;
  }

  lemma FinishKeepsSessions(s: State, l: Label)
    requires SessionInv(s.sessions, s.runs) && GenerationInv(s.runs) && RefInv(s.runs) && Enabled(s, l) && l.Finish?
    ensures SessionInv(Apply(s, l).sessions, Apply(s, l).runs)
  {
    DropsAre(s, l);
    hide RefInv, WorkerGone, PermitDrop, AdmissionDrop, ServiceRefusal, AdmitRefusal, AdmitTried, Pruned, Started,
         Stopped, OpenOf, HeldByRuns, ClosedAll, CancelledBy, ClosedSession, MayPublish, Published;
    var run := s.runs[l.run];
    forall r | r in s.runs && r != l.run && Unfinished(s.runs[r]) ensures s.runs[r].sess != run.sess {}
  }

  lemma ConnectKeepsSessions(s: State, l: Label)
    requires SessionInv(s.sessions, s.runs) && Enabled(s, l) && l.Connect?
    ensures SessionInv(Apply(s, l).sessions, Apply(s, l).runs)
  {
    hide ServiceRefusal, AdmitRefusal, AdmitTried, Pruned, Started, Stopped, OpenOf, HeldByRuns, ClosedAll,
         CancelledBy, ClosedSession, RunDropped, MayPublish, Published;
    assert Apply(s, l) == s.(sessions := s.sessions[l.sess := Session(false, 0, None, None)]);
    hide Apply, Enabled;
  }

  lemma TouchesOnly(s: State, l: Label)
    requires RefInv(s.runs) && Enabled(s, l) && !l.Start? && !l.Finish? && !l.Connect?
    ensures Apply(s, l).sessions.Keys == s.sessions.Keys
    ensures forall x :: x in s.sessions ==> Touched(s.sessions[x], Apply(s, l).sessions[x])
  {
    DropsAre(s, l);
    hide RefInv, WorkerGone, PermitDrop, AdmissionDrop, Pruned, OpenOf, HeldByRuns, Stopped;
  }

  predicate Advances(l: Label) { l.WorkerExit? || l.Timeout? || l.Reap? || l.DropPermit? }

  lemma AdvancesOnly(s: State, l: Label)
    requires RefInv(s.runs) && Enabled(s, l) && !l.Start? && !l.Finish?
    ensures Advances(l) ==>
      && l.run in s.runs && l.run in Apply(s, l).runs
      && var run := Apply(s, l).runs[l.run];
         && Apply(s, l).runs == s.runs[l.run := run]
         && run.sess == s.runs[l.run].sess && run.gen == s.runs[l.run].gen && run.request == s.runs[l.run].request
         && (Unfinished(run) ==> Unfinished(s.runs[l.run]))
    ensures !Advances(l) ==> Apply(s, l).runs == s.runs
  {
    DropsAre(s, l);
    hide RefInv, WorkerGone, PermitDrop, AdmissionDrop, AdmitRefusal, AdmitTried, Pruned, Started, Stopped, OpenOf,
         HeldByRuns, ClosedAll, CancelledBy, ClosedSession, RunDropped, MayPublish, Published, ServiceRefusal;
  }

  lemma StepKeepsSessions(s: State, l: Label)
    requires SessionInv(s.sessions, s.runs) && GenerationInv(s.runs) && RefInv(s.runs) && Enabled(s, l)
    ensures SessionInv(Apply(s, l).sessions, Apply(s, l).runs)
  {
    hide Apply, Enabled, RefInv, SessionInv, GenerationInv;
    var s' := Apply(s, l);
    if l.Start? {
      StartKeepsSessions(s, l);
    } else if l.Finish? {
      FinishKeepsSessions(s, l);
    } else if l.Connect? {
      ConnectKeepsSessions(s, l);
    } else {
      TouchesOnly(s, l);
      TouchKeeps(s.sessions, s'.sessions, s.runs);
      AdvancesOnly(s, l);
      if Advances(l) { AdvanceKeeps(s'.sessions, s.runs, l.run, s'.runs[l.run]); }
    }
  }

  lemma StepKeepsGenerations(s: State, l: Label)
    requires SessionInv(s.sessions, s.runs) && GenerationInv(s.runs) && RefInv(s.runs) && Enabled(s, l)
    ensures GenerationInv(Apply(s, l).runs)
  {
    DropsAre(s, l);
    hide RefInv, WorkerGone, PermitDrop, AdmissionDrop, ServiceRefusal, Pruned, Started, Stopped, OpenOf, HeldByRuns,
         ClosedAll, CancelledBy, ClosedSession, RunDropped, MayPublish, Published;
    var runs := Apply(s, l).runs;
    if l.Start? {
      assert forall r :: r in s.runs && s.runs[r].sess == l.sess ==> s.runs[r].gen < runs[l.run].gen;
    } else {
      hide SessionInv;
      assert forall r :: r in runs ==> r in s.runs && runs[r].sess == s.runs[r].sess && runs[r].gen == s.runs[r].gen;
    }
  }

  lemma StartKeepsListed(s: State, l: Label)
    requires SessionInv(s.sessions, s.runs) && ListedInv(s) && Enabled(s, l) && l.Start?
    ensures ListedInv(Apply(s, l))
  {}

  lemma RefusedKeepsListed(s: State, l: Label)
    requires ListedInv(s) && Enabled(s, l) && l.Refused?
    ensures ListedInv(Apply(s, l))
  {}

  lemma StopKeepsListed(s: State, l: Label)
    requires ListedInv(s) && Enabled(s, l) && l.Stop?
    ensures ListedInv(Apply(s, l))
  {}

  /** A closed session's run is cancelled. */
  ghost predicate Quiet(x: Session) { x.closed && x.active.Some? ==> x.active.value.cancelled }

  lemma SessionsStayQuiet(s: State, l: Label)
    requires Enabled(s, l) && forall x :: x in s.sessions ==> Quiet(s.sessions[x])
    ensures forall x :: x in Apply(s, l).sessions ==> Quiet(Apply(s, l).sessions[x])
  {}

  /** The other steps leave the service's list alone and let no run begin. */
  lemma OtherSteps(s: State, l: Label)
    requires RefInv(s.runs) && Enabled(s, l) && !l.Start? && !l.Refused? && !l.Stop?
    ensures var svc := Apply(s, l).svc;
      svc.weak == s.svc.weak && svc.stopped == s.svc.stopped && svc.semaphoreClosed == s.svc.semaphoreClosed
    ensures var runs := Apply(s, l).runs;
      forall r :: r in runs && Unfinished(runs[r]) ==>
        r in s.runs && Unfinished(s.runs[r]) && runs[r].sess == s.runs[r].sess
  {
    DropsAre(s, l);
    hide RefInv, WorkerGone, PermitDrop, AdmissionDrop, AdmitRefusal, AdmitTried, Pruned, Started, Stopped, OpenOf,
         HeldByRuns, ClosedAll, CancelledBy, ClosedSession, RunDropped, MayPublish, Published, ServiceRefusal;
  }

  lemma OtherKeepsListed(s: State, l: Label)
    requires SessionInv(s.sessions, s.runs) && ListedInv(s) && RefInv(s.runs)
    requires Enabled(s, l) && !l.Start? && !l.Refused? && !l.Stop?
    ensures ListedInv(Apply(s, l))
  {
    hide Apply, Enabled, RefInv;
    var s' := Apply(s, l);
    assert forall x :: x in s.sessions ==> Quiet(s.sessions[x]);
    SessionsStayQuiet(s, l);
    StoppedStays(s, l);
    OtherSteps(s, l);
    forall r | r in s'.runs && Unfinished(s'.runs[r]) ensures s.runs[r].sess in s.sessions {}
    hide SessionInv;
    forall x | x in s'.sessions ensures Quiet(s'.sessions[x]) {}
  }

  lemma StepKeepsListed(s: State, l: Label)
    requires SessionInv(s.sessions, s.runs) && ListedInv(s) && RefInv(s.runs) && Enabled(s, l)
    ensures ListedInv(Apply(s, l))
  {
    hide RefInv, SessionInv, ListedInv, Enabled, Apply;
    if l.Start? {
      StartKeepsListed(s, l);
    } else if l.Refused? {
      RefusedKeepsListed(s, l);
    } else if l.Stop? {
      StopKeepsListed(s, l);
    } else {
      OtherKeepsListed(s, l);
    }
  }

  lemma StepKeeps(s: State, l: Label)
    requires Inv(s) && Enabled(s, l)
    ensures Inv(Apply(s, l))
  {
    hide Apply, Enabled, JobsInv, RefInv, PermitInv, SessionInv, GenerationInv, ListedInv;
    StepKeepsJobs(s, l);
    StepKeepsRefs(s, l);
    StepKeepsPermits(s, l);
    StepKeepsSessions(s, l);
    StepKeepsGenerations(s, l);
    StepKeepsListed(s, l);
  }

  lemma InitialInv(s: State)
    requires Initial(s)
    ensures Inv(s)
  {
    assert Holders(s) == {};
  }

  /** One step of a run. */
  lemma StepAt(ss: seq<State>, ls: seq<Label>, i: nat)
    requires IsRun(ss, ls) && i < |ls|
    ensures |ss| == |ls| + 1 && Enabled(ss[i], ls[i]) && ss[i + 1] == Apply(ss[i], ls[i])
  {}

  lemma {:induction false} Reachable(ss: seq<State>, ls: seq<Label>, n: nat)
    requires IsRun(ss, ls) && n <= |ls|
    ensures Inv(ss[n])
  {
    hide Apply, Enabled, Inv, Initial;
    if n == 0 {
      InitialInv(ss[0]);
    } else {
      Reachable(ss, ls, n - 1);
      StepKeeps(ss[n - 1], ls[n - 1]);
    }
  }

  // ---------------------------------------------------------------- theorems

  lemma {:induction false} ListBoundsSet(xs: seq<nat>, ys: set<nat>)
    requires forall y :: y in ys ==> y in xs
    ensures |ys| <= |xs|
  {
    if xs == [] {
      assert ys == {};
    } else {
      var n := |xs| - 1;
      ListBoundsSet(xs[..n], ys - {xs[n]});
      assert ys <= (ys - {xs[n]}) + {xs[n]};
      SubsetSize(ys, (ys - {xs[n]}) + {xs[n]});
    }
  }

  lemma {:induction false} SubsetSize(a: set<nat>, b: set<nat>)
    requires a <= b
    ensures |a| <= |b|
  {
    if a != {} {
      var x :| x in a;
      SubsetSize(a - {x}, b - {x});
    }
  }

  /** At most two supervisors and two workers are ever live, and free plus held permits are always two. */
  lemma AtMostTwoRuns(ss: seq<State>, ls: seq<Label>, n: nat)
    requires IsRun(ss, ls) && n <= |ls|
    ensures |Running(ss[n])| <= WORK_LIMIT
    ensures Workers(ss[n]) <= Holders(ss[n]) <= Running(ss[n]) && |Workers(ss[n])| <= WORK_LIMIT
    ensures ss[n].svc.permits + |Holders(ss[n])| == WORK_LIMIT
  {
    Reachable(ss, ls, n);
    forall r | r in Holders(ss[n]) ensures r in Running(ss[n]) { RefsAre(ss[n].runs[r], ss[n].runs, r); }
    ListBoundsSet(ss[n].svc.jobs, Running(ss[n]));
    SubsetSize(Workers(ss[n]), Running(ss[n]));
  }

  /** The run's own steps are recorded in its position. */
  ghost predicate Recorded(s: State, ls: seq<Label>, r: RunId) {
    && (r in s.runs && !s.runs[r].worker ==> WorkerExit(r) in ls)
    && (r in s.runs && s.runs[r].sup in {Reaped, PermitDropped, Finished} ==> Reap(r) in ls)
  }

  lemma RecordedStep(s: State, ls: seq<Label>, l: Label, r: RunId)
    requires Enabled(s, l) && Recorded(s, ls, r)
    ensures Recorded(Apply(s, l), ls + [l], r)
  {}

  lemma {:induction false} RecordedRun(ss: seq<State>, ls: seq<Label>, n: nat, r: RunId)
    requires IsRun(ss, ls) && n <= |ls|
    ensures Recorded(ss[n], ls[..n], r)
  {
    if n > 0 {
      hide Apply, Enabled, Recorded;
      RecordedRun(ss, ls, n - 1, r);
      RecordedStep(ss[n - 1], ls[..n - 1], ls[n - 1], r);
      assert ls[..n - 1] + [ls[n - 1]] == ls[..n];
    }
  }

  lemma PermitOnlyFromDrop(s: State, l: Label)
    requires Inv(s) && Enabled(s, l) && Apply(s, l).svc.permits > s.svc.permits
    ensures l.DropPermit? && !s.runs[l.run].worker && Apply(s, l).svc.permits == s.svc.permits + 1
  {
    DropsAre(s, l);
    if !l.Start? && !l.DropPermit? { HoldersStay(s, l); }
  }

  /**
    The permit is shared by the worker and its supervisor. It comes back only when the supervisor
    drops its reference, after the worker exited, dropping its own, and was reaped.
   */
  lemma PermitReturnsAfterBothHolders(ss: seq<State>, ls: seq<Label>, n: nat)
    requires IsRun(ss, ls) && n < |ls| && ss[n + 1].svc.permits > ss[n].svc.permits
    ensures ls[n].DropPermit?
    ensures WorkerExit(ls[n].run) in ls[..n] && Reap(ls[n].run) in ls[..n]
    ensures ls[n].run !in Workers(ss[n]) && ss[n + 1].svc.permits == ss[n].svc.permits + 1
    ensures ls[n].run in ss[n].runs && ss[n].runs[ls[n].run].permit == {Supervising}
    ensures ls[n].run in ss[n + 1].runs && ss[n + 1].runs[ls[n].run].permit == {}
  {
    hide IsRun, Inv, Apply;
    Reachable(ss, ls, n);
    StepAt(ss, ls, n);
    PermitOnlyFromDrop(ss[n], ls[n]);
    RecordedRun(ss, ls, n, ls[n].run);
    InvHasRefs(ss[n]);
    DropsAre(ss[n], ls[n]);
    RefsAre(ss[n].runs[ls[n].run], ss[n].runs, ls[n].run);
  }

  lemma InvHasRefs(s: State)
    requires Inv(s)
    ensures RefInv(s.runs)
  {}

  /** An exiting worker always leaves both shared references with its supervisor: its drop is never the last. */
  lemma WorkerDropIsNeverLast(ss: seq<State>, ls: seq<Label>, n: nat)
    requires IsRun(ss, ls) && n < |ls| && ls[n].WorkerExit?
    ensures var r := ls[n].run;
      && r in ss[n].runs && ss[n].runs[r].permit == {Worker, Supervising} == ss[n].runs[r].admission
      && r in ss[n + 1].runs && ss[n + 1].runs[r].permit == {Supervising} == ss[n + 1].runs[r].admission
      && ss[n + 1].svc == ss[n].svc && ss[n + 1].sessions == ss[n].sessions
  {
    hide IsRun, Inv, Apply;
    Reachable(ss, ls, n);
    StepAt(ss, ls, n);
    InvHasRefs(ss[n]);
    DropsAre(ss[n], ls[n]);
    RefsAre(ss[n].runs[ls[n].run], ss[n].runs, ls[n].run);
  }

  lemma AdmissionOnlyFromFinish(s: State, l: Label, x: SessId)
    requires Inv(s) && Enabled(s, l) && x in s.sessions && s.sessions[x].active.Some?
    requires x in Apply(s, l).sessions
    requires Apply(s, l).sessions[x].active.None?
      || Apply(s, l).sessions[x].active.value.gen != s.sessions[x].active.value.gen
    ensures l.Finish? && l.run in s.runs && s.runs[l.run].sess == x
      && s.runs[l.run].gen == s.sessions[x].active.value.gen
    ensures Apply(s, l).sessions[x].active.None?
  {
    DropsAre(s, l);
    if !l.Start? && !l.Finish? && !l.Connect? {
      TouchesOnly(s, l);
    }
  }

  /** A session's admission ends only with the run it admitted, after that run's worker exited and was reaped. */
  lemma AdmissionEndsAfterBothOwners(ss: seq<State>, ls: seq<Label>, n: nat, x: SessId)
    requires IsRun(ss, ls) && n < |ls| && x in ss[n].sessions && ss[n].sessions[x].active.Some?
      && x in ss[n + 1].sessions
    requires ss[n + 1].sessions[x].active.None?
             || ss[n + 1].sessions[x].active.value.gen != ss[n].sessions[x].active.value.gen
    ensures ls[n].Finish? && ls[n].run in ss[n].runs
    ensures ss[n].runs[ls[n].run].sess == x && ss[n].runs[ls[n].run].gen == ss[n].sessions[x].active.value.gen
    ensures WorkerExit(ls[n].run) in ls[..n] && Reap(ls[n].run) in ls[..n]
    ensures ss[n + 1].sessions[x].active.None?
  {
    hide IsRun, Inv, Apply;
    Reachable(ss, ls, n);
    StepAt(ss, ls, n);
    AdmissionOnlyFromFinish(ss[n], ls[n], x);
    RecordedRun(ss, ls, n, ls[n].run);
    InvHasRefs(ss[n]);
  }

  lemma StoppedStays(s: State, l: Label)
    requires Enabled(s, l)
    ensures s.svc.stopped ==> Apply(s, l).svc.stopped
    ensures forall x :: x in s.sessions ==> x in Apply(s, l).sessions
    ensures forall x :: x in s.sessions && s.sessions[x].closed ==> Apply(s, l).sessions[x].closed
  {}

  lemma {:induction false} StoppedForever(ss: seq<State>, ls: seq<Label>, i: nat, n: nat)
    requires IsRun(ss, ls) && i <= n <= |ls|
    ensures ss[i].svc.stopped ==> ss[n].svc.stopped
    ensures forall x :: x in ss[i].sessions && ss[i].sessions[x].closed ==>
      x in ss[n].sessions && ss[n].sessions[x].closed
  {
    if i < n {
      hide Apply, Enabled;
      StoppedForever(ss, ls, i, n - 1);
      StoppedStays(ss[n - 1], ls[n - 1]);
    }
  }

  lemma NothingWhenStopped(s: State, l: Label)
    requires Inv(s) && Enabled(s, l) && s.svc.stopped
    ensures !l.Start? && !l.Publish?
  {}

  /** After `stop` no job is admitted and no reply is published, ever. */
  lemma NothingAfterStop(ss: seq<State>, ls: seq<Label>, i: nat, k: nat)
    requires IsRun(ss, ls) && i < k < |ls| && ls[i].Stop?
    ensures !ls[k].Start? && !ls[k].Publish?
  {
    hide IsRun, Inv, Enabled;
    StepAt(ss, ls, i);
    StepAt(ss, ls, k);
    assert ss[i + 1].svc.stopped;
    hide Apply;
    StoppedForever(ss, ls, i + 1, k);
    Reachable(ss, ls, k);
    NothingWhenStopped(ss[k], ls[k]);
  }

  lemma StopClosesRun(s: State, l: Label, r: RunId)
    requires Inv(s) && Enabled(s, l) && l.Stop? && r in Running(s)
    ensures var x := s.runs[r].sess; var sessions := Apply(s, l).sessions;
      && x in s.sessions && x in sessions && sessions[x].closed && sessions[x].active.Some?
      && sessions[x].active.value.gen == s.runs[r].gen && sessions[x].active.value.cancelled
  {}

  /** `stop` closes the session of every run still in flight and cancels the run; the session stays closed. */
  lemma StopClosesEveryRunInFlight(ss: seq<State>, ls: seq<Label>, i: nat, n: nat, r: RunId)
    requires IsRun(ss, ls) && i < n <= |ls| && ls[i].Stop? && r in Running(ss[i])
    ensures var x := ss[i].runs[r].sess;
      && x in ss[i + 1].sessions && ss[i + 1].sessions[x].closed
      && ss[i + 1].sessions[x].active.Some? && ss[i + 1].sessions[x].active.value.gen == ss[i].runs[r].gen
      && ss[i + 1].sessions[x].active.value.cancelled
      && x in ss[n].sessions && ss[n].sessions[x].closed
  {
    hide IsRun, Inv, Apply, Enabled;
    Reachable(ss, ls, i);
    StepAt(ss, ls, i);
    StopClosesRun(ss[i], ls[i], r);
    StoppedForever(ss, ls, i + 1, n);
  }

  /**
    A timeout cancels by request id, yet only its own generation: the session still admits this
    very run, a reply that is withdrawn is this run's, and no other session is touched.
   */
  lemma TimeoutCancelsOnlyItsOwnRun(ss: seq<State>, ls: seq<Label>, k: nat, r: RunId)
    requires IsRun(ss, ls) && k < |ls| && ls[k] == Timeout(r)
    ensures var x := ss[k].runs[r].sess; var gen := ss[k].runs[r].gen;
      && x in ss[k].sessions && x in ss[k + 1].sessions
      && ss[k].sessions[x].active.Some? && ss[k].sessions[x].active.value.gen == gen
      && ss[k + 1].sessions[x].active == Some(ss[k].sessions[x].active.value.(cancelled := true))
      && (ss[k + 1].sessions[x].slot != ss[k].sessions[x].slot ==> ss[k].sessions[x].slot.value.gen == gen)
      && (forall y :: y in ss[k].sessions && y != x ==> ss[k + 1].sessions[y] == ss[k].sessions[y])
      && (forall q :: q in Running(ss[k]) && q != r ==> ss[k].runs[q].sess != x)
  {
    Reachable(ss, ls, k);
    assert ss[k + 1] == Apply(ss[k], ls[k]);
  }

  /** A run that has published is marked so while it lasts. */
  ghost predicate PublishCounted(s: State, ls: seq<Label>, r: RunId) {
    && multiset(ls)[Publish(r)] <= 1
    && (r !in s.runs ==> multiset(ls)[Publish(r)] == 0)
    && (r in s.runs && Unfinished(s.runs[r]) && multiset(ls)[Publish(r)] == 1 ==>
          s.runs[r].sess in s.sessions && s.sessions[s.runs[r].sess].active.Some?
          && s.sessions[s.runs[r].sess].active.value.published)
  }

  lemma PublishCountedStep(s: State, ls: seq<Label>, l: Label, r: RunId)
    requires Inv(s) && Enabled(s, l) && PublishCounted(s, ls, r)
    ensures PublishCounted(Apply(s, l), ls + [l], r)
  {
    assert multiset(ls + [l]) == multiset(ls) + multiset{l};
    if l.Start? || l.Finish? || l.Connect? {
      if l.Start? && r in s.runs && Unfinished(s.runs[r]) { assert s.runs[r].sess != l.sess; }
      if l.Finish? && r in s.runs && Unfinished(s.runs[r]) && r != l.run {
        assert s.runs[r].sess != s.runs[l.run].sess;
      }
    } else {
      TouchesOnly(s, l);
      PublishTouched(s, ls, l, r);
    }
  }

  lemma PublishTouched(s: State, ls: seq<Label>, l: Label, r: RunId)
    requires Inv(s) && Enabled(s, l) && PublishCounted(s, ls, r) && !l.Start? && !l.Finish? && !l.Connect?
    requires multiset(ls + [l]) == multiset(ls) + multiset{l}
    ensures PublishCounted(Apply(s, l), ls + [l], r)
  {
    hide PermitInv, GenerationInv, ListedInv, Stopped, ServiceRefusal, AdmitRefusal, AdmitTried, Pruned, OpenOf,
         HeldByRuns, ClosedAll, CancelledBy, ClosedSession, RunDropped;
    TouchesOnly(s, l);
    if r in s.runs && Unfinished(s.runs[r]) {
      assert Touched(s.sessions[s.runs[r].sess], Apply(s, l).sessions[s.runs[r].sess]);
    }
  }

  lemma NothingPublished(ss: seq<State>, ls: seq<Label>, r: RunId)
    requires IsRun(ss, ls)
    ensures |ss| == |ls| + 1 && PublishCounted(ss[0], [], r)
  {}

  lemma {:induction false} PublishCountedRun(ss: seq<State>, ls: seq<Label>, n: nat, r: RunId)
    requires IsRun(ss, ls) && n <= |ls|
    ensures |ss| == |ls| + 1 && PublishCounted(ss[n], ls[..n], r)
  {
    hide IsRun, Apply, Enabled, PublishCounted, Inv;
    if n == 0 {
      NothingPublished(ss, ls, r);
      assert ls[..0] == [];
    } else {
      PublishCountedRun(ss, ls, n - 1, r);
      Reachable(ss, ls, n - 1);
      StepAt(ss, ls, n - 1);
      PublishCountedStep(ss[n - 1], ls[..n - 1], ls[n - 1], r);
      assert ls[..n - 1] + [ls[n - 1]] == ls[..n];
    }
  }

  /** Every run publishes at most one reply. */
  lemma OneReplyPerRun(ss: seq<State>, ls: seq<Label>, r: RunId)
    requires IsRun(ss, ls)
    ensures multiset(ls)[Publish(r)] <= 1
  {
    PublishCountedRun(ss, ls, |ls|, r);
    assert ls[..|ls|] == ls;
  }
}
