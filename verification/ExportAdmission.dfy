/** Who is admitted, why a request is refused, and what becomes of a reply. */
module ExportAdmission {
  import opened Options
  import opened Filters
  import opened ExportModel
  import opened ExportTheorems

  // ---------------------------------------------------------------- the pruned lists

  /** Retaining keeps what is in the set, each occurrence in order. */
  lemma {:induction false} RetainIs(xs: seq<nat>, keep: set<nat>)
    ensures IsFilter(xs, (x: nat) => x in keep, Retain(xs, keep))
  {
    hide IsFilter;
    var kept := (x: nat) => x in keep;
    if xs == [] {
      FilterNone(kept);
    } else {
      var n := |xs| - 1;
      RetainIs(xs[..n], keep);
      assert xs == xs[..n] + [xs[n]];
      if kept(xs[n]) {
        FilterKeeps(xs[..n], kept, Retain(xs[..n], keep), xs[n]);
      } else {
        FilterSkips(xs[..n], kept, Retain(xs[..n], keep), xs[n]);
      }
    }
  }

  /** A list without repeats is as long as the set of its members. */
  lemma {:induction false} ListSize(xs: seq<nat>, ys: set<nat>)
    requires Distinct(xs) && forall y :: y in ys <==> y in xs
    ensures |xs| == |ys|
  {
    if xs == [] {
      assert ys == {};
    } else {
      var n := |xs| - 1;
      forall y ensures y in ys - {xs[n]} <==> y in xs[..n] {
        assert xs == xs[..n] + [xs[n]];
        if y in xs[..n] { var k :| 0 <= k < n && xs[k] == y; }
      }
      ListSize(xs[..n], ys - {xs[n]});
    }
  }

  /**
    Every `start`, admitted or not, leaves exactly the unfinished runs listed, besides the one it may
    have added, and of the sessions exactly those listed before that are still held and open.
   */
  lemma StartForgetsFinishedRuns(ss: seq<State>, ls: seq<Label>, n: nat)
    requires IsRun(ss, ls) && n < |ls| && (ls[n].Start? || ls[n].Refused?)
    ensures forall r :: r in ss[n + 1].svc.jobs <==>
      (r in ss[n].runs && ss[n].runs[r].sup != Finished) || (ls[n].Start? && r == ls[n].run)
    ensures Distinct(ss[n + 1].svc.jobs)
    ensures forall x :: x in ss[n + 1].svc.weak <==>
      || (x in ss[n].svc.weak && x in ls[n].held && x in ss[n].sessions && !ss[n].sessions[x].closed)
      || (ls[n].Start? && x == ls[n].sess)
  {
    hide IsRun, Inv;
    Reachable(ss, ls, n);
    Reachable(ss, ls, n + 1);
    StepAt(ss, ls, n);
    StartLists(ss[n], ls[n]);
    InvHasJobs(ss[n + 1]);
    hide Apply, Enabled;
  }

  lemma InvHasJobs(s: State)
    requires Inv(s)
    ensures JobsInv(s.svc, s.runs) && Distinct(s.svc.jobs)
  {}

  lemma StartLists(s: State, l: Label)
    requires Inv(s) && Enabled(s, l) && (l.Start? || l.Refused?)
    ensures var s' := Apply(s, l);
      && (forall r :: r in s'.svc.jobs <==> (r in s.runs && s.runs[r].sup != Finished) || (l.Start? && r == l.run))
      && forall x :: x in s'.svc.weak <==>
           || (x in s.svc.weak && x in l.held && x in s.sessions && !s.sessions[x].closed) || (l.Start? && x == l.sess)
  {
    hide PermitInv, SessionInv, GenerationInv, ListedInv, RefInv, AdmitRefusal, AdmitTried, HeldByRuns;
  }

  // ---------------------------------------------------------------- admission and refusal

  lemma StopStep(s: State, l: Label)
    requires Enabled(s, l)
    ensures Apply(s, l).svc.stopped <==> s.svc.stopped || l.Stop?
    ensures Apply(s, l).svc.semaphoreClosed <==> s.svc.semaphoreClosed || l.Stop?
  {}

  /** The service is stopped, and its semaphore closed, exactly once `stop` has been called. */
  lemma {:induction false} StoppedExactlyAfterStop(ss: seq<State>, ls: seq<Label>, n: nat)
    requires IsRun(ss, ls) && n <= |ls|
    ensures |ss| == |ls| + 1
    ensures ss[n].svc.stopped <==> exists i :: 0 <= i < n && ls[i].Stop?
    ensures ss[n].svc.semaphoreClosed <==> ss[n].svc.stopped
  {
    hide Apply, Enabled;
    if n > 0 {
      StoppedExactlyAfterStop(ss, ls, n - 1);
      StepAt(ss, ls, n - 1);
      hide IsRun;
      StopStep(ss[n - 1], ls[n - 1]);
    }
  }

  /** A session that would take a request: open, with no run, and with no reply but an expired one nobody has taken. */
  ghost predicate Ready(x: Session, expired: bool) {
    && !x.closed && x.active.None? && x.gen < 0xFFFF_FFFF_FFFF_FFFF
    && (x.slot.None? || (expired && !x.slot.value.taken))
  }

  /**
    A request is admitted exactly when `stop` was never called, fewer than two runs are unfinished and
    its session is ready for it. A permit is then free by itself.
   */
  lemma AdmittedExactlyWhenFree(ss: seq<State>, ls: seq<Label>, n: nat, r: RunId, x: SessId, request: string,
                                held: set<SessId>, expired: bool)
    requires IsRun(ss, ls) && n <= |ls| && r !in ss[n].runs && x in ss[n].sessions && x in held
      && HeldByRuns(ss[n], held)
    ensures Enabled(ss[n], Start(r, x, request, held, expired)) <==>
      && (forall i :: 0 <= i < n ==> !ls[i].Stop?)
      && |set q | q in ss[n].runs && ss[n].runs[q].sup != Finished| < 2
      && Ready(ss[n].sessions[x], expired)
    ensures Enabled(ss[n], Refused(x, held, expired)) <==> !Enabled(ss[n], Start(r, x, request, held, expired))
  {
    StoppedExactlyAfterStop(ss, ls, n);
    Reachable(ss, ls, n);
    hide IsRun, Apply;
    var s := ss[n];
    assert Running(s) == set q | q in s.runs && s.runs[q].sup != Finished;
    PrunedSize(s, held);
    PermitIsFree(s);
    hide Inv;
  }

  lemma PrunedSize(s: State, held: set<SessId>)
    requires Inv(s)
    ensures |Pruned(s.svc, Running(s), OpenOf(s, held)).jobs| == |Running(s)|
  {
    hide PermitInv, SessionInv, GenerationInv, ListedInv, RefInv;
    ListSize(Retain(s.svc.jobs, Running(s)), Running(s));
  }

  lemma PermitIsFree(s: State)
    requires Inv(s)
    ensures |Running(s)| < WORK_LIMIT ==> s.svc.permits > 0
  {
    forall r | r in Holders(s) ensures r in Running(s) { RefsAre(s.runs[r], s.runs, r); }
    SubsetSize(Holders(s), Running(s));
  }

  /** The reasons, in the order in which they are decided: a stopped service, a full one, then the session's own. */
  lemma RefusalReasons(v: Service, x: Session, expired: bool)
    ensures ServiceRefusal(v) ==
      if v.stopped then Some(Unavailable)
      else if |v.jobs| >= 2 || v.permits == 0 || v.semaphoreClosed then Some(Busy)
      else None
    ensures AdmitRefusal(x, expired).None? <==> Ready(x, expired)
    ensures AdmitRefusal(x, expired) == Some(Busy) <==>
      !x.closed && (x.active.Some? || (x.slot.Some? && (x.slot.value.taken || !expired)))
  {}

  // ---------------------------------------------------------------- replies

  /** What a run publishes waits, valid and untaken, for its session's sender, which gets it whole. */
  lemma PublishedReplyIsDelivered(ss: seq<State>, ls: seq<Label>, n: nat, r: RunId)
    requires IsRun(ss, ls) && n < |ls| && ls[n] == Publish(r)
    ensures r in ss[n].runs && ss[n].runs[r].sess in ss[n + 1].sessions
    ensures var x := ss[n].runs[r].sess; var run := ss[n].runs[r];
      && ss[n + 1].sessions[x].slot == Some(Slot(run.gen, run.request, false, true))
      && Enabled(ss[n + 1], TakeReply(x))
      && x in Apply(ss[n + 1], TakeReply(x)).sessions
      && Apply(ss[n + 1], TakeReply(x)).sessions[x].slot == Some(Slot(run.gen, run.request, true, true))
  {
    hide IsRun, Inv;
    Reachable(ss, ls, n);
    StepAt(ss, ls, n);
    PublishedSlot(ss[n], r);
  }

  lemma PublishedSlot(s: State, r: RunId)
    requires Inv(s) && Enabled(s, Publish(r))
    ensures var x := s.runs[r].sess; var s' := Apply(s, Publish(r));
      && x in s'.sessions && !s'.sessions[x].closed
      && s'.sessions[x].slot == Some(Slot(s.runs[r].gen, s.runs[r].request, false, true))
  {
    hide PermitInv, GenerationInv, ListedInv, JobsInv;
  }

  /** A reply that was sent, dropped or left to expire makes room: a session with nothing else is ready again. */
  lemma ReplyMakesRoom(s: State, l: Label)
    requires Enabled(s, l) && (l.DropReply? || l.ExpireReply?)
    ensures Apply(s, l) == s.(sessions := s.sessions[l.sess := s.sessions[l.sess].(slot := None)])
    ensures var x := s.sessions[l.sess];
      !x.closed && x.active.None? && x.gen < 0xFFFF_FFFF_FFFF_FFFF ==> Ready(Apply(s, l).sessions[l.sess], false)
  {}

  /** A finished run ends its own admission only: another generation's stays. */
  lemma DropEndsOwnAdmission(x: Session, gen: nat)
    ensures x.active.Some? && x.active.value.gen != gen ==> RunDropped(x, gen) == x
    ensures x.active.Some? && x.active.value.gen == gen ==> RunDropped(x, gen) == x.(active := None)
  {}

  /** The run has been told to stop: while its worker lives, its admission is marked cancelled. */
  ghost predicate Silenced(s: State, r: RunId) {
    r in s.runs && (s.runs[r].worker ==>
                      && s.runs[r].sess in s.sessions && s.sessions[s.runs[r].sess].active.Some?
                      && s.sessions[s.runs[r].sess].active.value.gen == s.runs[r].gen
                      && s.sessions[s.runs[r].sess].active.value.cancelled)
  }

  /** No step takes a cancellation back. */
  lemma CancelledStays(s: State, l: Label, x: SessId)
    requires RefInv(s.runs) && Enabled(s, l) && !l.Start? && !l.Finish? && !l.Connect?
    requires x in s.sessions && s.sessions[x].active.Some? && s.sessions[x].active.value.cancelled
    ensures x in Apply(s, l).sessions && Apply(s, l).sessions[x].active.Some?
    ensures Apply(s, l).sessions[x].active.value.cancelled
    ensures Apply(s, l).sessions[x].active.value.gen == s.sessions[x].active.value.gen
  {
    DropsAre(s, l);
    hide RefInv, WorkerGone, PermitDrop, AdmissionDrop, Pruned, OpenOf, HeldByRuns, Stopped, ServiceRefusal,
         SlotInvalidated;
  }

  lemma SilencedStays(s: State, l: Label, r: RunId)
    requires Inv(s) && Enabled(s, l) && Silenced(s, r) && !l.Start? && !l.Finish? && !l.Connect?
    ensures Silenced(Apply(s, l), r)
  {
    hide Apply, Enabled, JobsInv, PermitInv, SessionInv, GenerationInv, ListedInv, RefInv;
    AdvancesOnly(s, l);
    WorkerOnlyStops(s, l, r);
    if s.runs[r].worker { CancelledStays(s, l, s.runs[r].sess); }
  }

  lemma WorkerOnlyStops(s: State, l: Label, r: RunId)
    requires RefInv(s.runs) && Enabled(s, l) && r in s.runs && !l.Start?
    ensures r in Apply(s, l).runs && (Apply(s, l).runs[r].worker ==> s.runs[r].worker)
    ensures Apply(s, l).runs[r].sess == s.runs[r].sess && Apply(s, l).runs[r].gen == s.runs[r].gen
  {
    DropsAre(s, l);
    hide RefInv, WorkerGone, PermitDrop, AdmissionDrop, AdmitRefusal, AdmitTried, Pruned, Started, Stopped, OpenOf,
         HeldByRuns, ClosedAll, CancelledBy, ClosedSession, RunDropped, MayPublish, Published, ServiceRefusal;
  }

  lemma SilencedStep(s: State, l: Label, r: RunId)
    requires Inv(s) && Enabled(s, l) && Silenced(s, r)
    ensures l != Publish(r) && Silenced(Apply(s, l), r)
  {
    if l.Start? || l.Finish? || l.Connect? {
      DropsAre(s, l);
      if s.runs[r].worker && l.Start? { assert s.runs[r].sess != l.sess; }
      if s.runs[r].worker && l.Finish? { assert r != l.run && s.runs[r].sess != s.runs[l.run].sess; }
    } else {
      SilencedStays(s, l, r);
    }
  }

  /**
    The step tells the unfinished run to stop: its timeout, a cancel of its request, its session's
    close, or `stop`.
   */
  ghost predicate Silences(s: State, l: Label, r: RunId) {
    && r in s.runs && s.runs[r].sup != Finished
    && match l
       case Timeout(q) => q == r
       case Cancel(x, request) => x == s.runs[r].sess && request == s.runs[r].request
       case Close(x) => x == s.runs[r].sess
       case Stop(_) => true
       case _ => false
  }

  lemma SilencedNow(s: State, l: Label, r: RunId)
    requires Inv(s) && Enabled(s, l) && Silences(s, l, r)
    ensures Silenced(Apply(s, l), r)
  {
    if l.Stop? { StopClosesRun(s, l, r); }
  }

  lemma {:induction false} SilencedRun(ss: seq<State>, ls: seq<Label>, i: nat, k: nat, r: RunId)
    requires IsRun(ss, ls) && i <= k < |ls| && i < |ss| && Silenced(ss[i], r)
    ensures ls[k] != Publish(r)
    decreases k - i
  {
    hide IsRun, Apply, Enabled, Inv, Silenced;
    Reachable(ss, ls, i);
    StepAt(ss, ls, i);
    SilencedStep(ss[i], ls[i], r);
    if i < k { SilencedRun(ss, ls, i + 1, k, r); }
  }

  /** A run that timed out, was cancelled, or whose session or service closed, publishes nothing any more. */
  lemma NoReplyAfterCancel(ss: seq<State>, ls: seq<Label>, i: nat, k: nat, r: RunId)
    requires IsRun(ss, ls) && i < k < |ls| && i < |ss| && Silences(ss[i], ls[i], r)
    ensures ls[k] != Publish(r)
  {
    hide IsRun, Apply, Enabled, Inv, Silenced, Silences;
    Reachable(ss, ls, i);
    StepAt(ss, ls, i);
    SilencedNow(ss[i], ls[i], r);
    SilencedRun(ss, ls, i + 1, k, r);
  }

  /**
    Cancelling a request withdraws its reply, untaken, or marks it invalid for the sender that holds
    it; a session with another request, or another session, is left as it is.
   */
  lemma CancelWithdrawsItsReply(s: State, x: SessId, request: string)
    requires Enabled(s, Cancel(x, request))
    ensures var s' := Apply(s, Cancel(x, request)); var was := s.sessions[x]; var now := s'.sessions[x];
      && s'.svc == s.svc && s'.runs == s.runs
      && (forall y :: y in s.sessions && y != x ==> s'.sessions[y] == s.sessions[y])
      && (was.slot.Some? && was.slot.value.request == request ==>
            if was.slot.value.taken then now.slot == Some(was.slot.value.(valid := false)) else now.slot == None)
      && (was.slot.Some? && was.slot.value.request != request ==> now.slot == was.slot)
      && (was.active.Some? && was.active.value.request == request ==>
            now.active == Some(was.active.value.(cancelled := true)))
      && (was.active.Some? && was.active.value.request != request ==> now.active == was.active)
      && now.closed == was.closed && now.gen == was.gen
  {}

  /** Closing a session cancels its run and leaves no reply a sender may still use. */
  lemma CloseWithdrawsEverything(s: State, x: SessId)
    requires Enabled(s, Close(x))
    ensures var was := s.sessions[x]; var now := Apply(s, Close(x)).sessions[x];
      && now.closed && now.gen == was.gen
      && (now.active.Some? <==> was.active.Some?)
      && (now.active.Some? ==> now.active.value == was.active.value.(cancelled := true))
      && (now.slot.Some? ==>
            was.slot.Some? && was.slot.value.taken && now.slot.value == was.slot.value.(valid := false))
      && (was.slot.Some? && was.slot.value.taken ==> now.slot.Some?)
  {}
}
