/** The service's two critical sections as the object that `start` and `stop` mutate. */
module ExportService {
  import opened Options
  import opened Filters
  import opened ExportModel
  import opened ExportAdmission

  class AnalysisExports {
    var permits: nat
    var semaphoreClosed: bool
    var stopped: bool
    var jobs: seq<RunId>
    var sessions: seq<SessId>

    function View(): Service
      reads this
    {
      Service(permits, semaphoreClosed, stopped, jobs, sessions)
    }

    constructor ()
      ensures View() == Service(WORK_LIMIT, false, false, [], [])
    {
      permits, semaphoreClosed, stopped, jobs, sessions := WORK_LIMIT, false, false, [], [];
    }

    static method RetainIn(xs: seq<nat>, keep: set<nat>) returns (r: seq<nat>)
      ensures r == Retain(xs, keep) && IsFilter(xs, (x: nat) => x in keep, r)
    {
      hide IsFilter;
      r := [];
      for i := 0 to |xs|
        invariant r == Retain(xs[..i], keep)
      {
        assert xs[..i + 1][..i] == xs[..i];
        if xs[i] in keep { r := r + [xs[i]]; }
      }
      assert xs[..|xs|] == xs;
      RetainIs(xs, keep);
    }

    method Prune(running: set<RunId>, open: set<SessId>)
      modifies this
      ensures View() == Pruned(old(View()), running, open)
      ensures IsFilter(old(jobs), (r: RunId) => r in running, jobs)
      ensures IsFilter(old(sessions), (x: SessId) => x in open, sessions)
      ensures stopped == old(stopped) && semaphoreClosed == old(semaphoreClosed) && permits == old(permits)
    {
      hide IsFilter;
      jobs := RetainIn(jobs, running);
      sessions := RetainIn(sessions, open);
    }

    /**
      `start`: prune, decide, take a permit, ask the session. A session that refuses gives the
      permit back, so a refusal of either kind leaves only the pruned lists.
     */
    method Start(run: RunId, sess: SessId, session: Session, request: string, expired: bool,
                 running: set<RunId>, open: set<SessId>)
      returns (refusal: Option<Refusal>, session': Session)
      modifies this
      ensures var v := Pruned(old(View()), running, open);
        && refusal == (if ServiceRefusal(v).Some? then ServiceRefusal(v) else AdmitRefusal(session, expired))
        && (refusal.None? ==> v.permits > 0 && View() == Started(v, run, sess))
        && (refusal.Some? ==> View() == v)
        && session' == if ServiceRefusal(v).Some? then session else AdmitTried(session, request, expired)
      ensures exists kept ::
        && IsFilter(old(jobs), (r: RunId) => r in running, kept)
        && jobs == (if refusal.None? then kept + [run] else kept)
        && permits == (if refusal.None? then old(permits) - 1 else old(permits))
        && (refusal.None? <==>
              !old(stopped) && |kept| < 2 && old(permits) > 0 && !old(semaphoreClosed) && Ready(session, expired))
    {
      hide Pruned, AdmitTried, AdmitRefusal, IsFilter, Ready;
      session' := session;
      Prune(running, open);
      ghost var kept := jobs;
      assert IsFilter(old(jobs), (r: RunId) => r in running, kept);
      RefusalReasons(View(), session, expired);
      if stopped { return Some(Unavailable), session; }
      if |jobs| >= WORK_LIMIT { return Some(Busy), session; }
      if semaphoreClosed || permits == 0 { return Some(Busy), session; }
      permits := permits - 1;
      session' := AdmitTried(session, request, expired);
      refusal := AdmitRefusal(session, expired);
      if refusal.Some? {
        permits := permits + 1;
        return;
      }
      if sess !in sessions { sessions := sessions + [sess]; }
      jobs := jobs + [run];
    }

    /** `stop`: every listed session that is still held is handed back to be closed, in order. */
    method Stop(running: set<RunId>, held: set<SessId>) returns (toClose: seq<SessId>)
      modifies this
      ensures View() == Stopped(old(View()), running)
      ensures IsFilter(old(sessions), (x: SessId) => x in held, toClose)
      ensures IsFilter(old(jobs), (r: RunId) => r in running, jobs) && sessions == [] && stopped && semaphoreClosed
    {
      hide IsFilter;
      stopped := true;
      semaphoreClosed := true;
      toClose := RetainIn(sessions, held);
      sessions := [];
      jobs := RetainIn(jobs, running);
    }
  }
}
