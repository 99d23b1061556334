/**
  Cache-summary export jobs: admission by the service, the per-connection session with its single
  delivery slot, and the worker and supervisor of every run. Each critical section is one step;
  worker and supervisor share the run's permit and its admission by reference, and the last drop of
  either gives it back. An ending supervisor drops its permit and its run in separate steps.
 */
module ExportModel {
  import opened Options

  type RunId = nat
  type SessId = nat

  const WORK_LIMIT: nat := 2
  const MAX_GENERATION: nat := 0xFFFF_FFFF_FFFF_FFFF

  datatype Refusal = Unavailable | Busy

  // ---------------------------------------------------------------- the session

  datatype Active = Active(gen: nat, request: string, cancelled: bool, published: bool)

  /** `taken`: a sender holds the bytes. */
  datatype Slot = Slot(gen: nat, request: string, taken: bool, valid: bool)

  datatype Session = Session(closed: bool, gen: nat, active: Option<Active>, slot: Option<Slot>)

  /** An untaken slot that expired is discarded by the next admission. */
  function Discarded(s: Session, expired: bool): Session {
    if expired && s.slot.Some? && !s.slot.value.taken then s.(slot := None) else s
  }

  function AdmitRefusal(s: Session, expired: bool): Option<Refusal> {
    var d := Discarded(s, expired);
    if s.closed then Some(Unavailable)
    else if d.active.Some? || d.slot.Some? then Some(Busy)
    else if d.gen >= MAX_GENERATION then Some(Unavailable)
    else None
  }

  /** A refusal past the closed check still discards the expired slot. */
  function AdmitTried(s: Session, request: string, expired: bool): Session {
    var d := Discarded(s, expired);
    if s.closed then s
    else if AdmitRefusal(s, expired).Some? then d
    else d.(gen := d.gen + 1, active := Some(Active(d.gen + 1, request, false, false)))
  }

  function SlotInvalidated(slot: Option<Slot>): Option<Slot> {
    match slot
    case None => None
    case Some(x) => if x.taken then Some(x.(valid := false)) else None
  }

  function CancelledBy(s: Session, request: string): Session {
    var mine := s.active.Some? && s.active.value.request == request;
    var a := if mine then Some(s.active.value.(cancelled := true)) else s.active;
    var x := if s.slot.Some? && s.slot.value.request == request then SlotInvalidated(s.slot) else s.slot;
    s.(active := a, slot := x)
  }

  function ClosedSession(s: Session): Session {
    s.(closed := true,
       active := if s.active.Some? then Some(s.active.value.(cancelled := true)) else None,
       slot := SlotInvalidated(s.slot))
  }

  predicate MayPublish(s: Session, gen: nat) {
    && !s.closed && s.slot.None?
    && s.active.Some? && s.active.value.gen == gen && !s.active.value.published && !s.active.value.cancelled
  }

  function Published(s: Session, gen: nat): Session
    requires MayPublish(s, gen)
  {
    s.(active := Some(s.active.value.(published := true)), slot := Some(Slot(gen, s.active.value.request, false, true)))
  }

  /** `ExportRun::drop`. */
  function RunDropped(s: Session, gen: nat): Session {
    if s.active.Some? && s.active.value.gen == gen then s.(active := None) else s
  }

  // ---------------------------------------------------------------- the service

  datatype Service = Service(permits: nat, semaphoreClosed: bool, stopped: bool, jobs: seq<RunId>, weak: seq<SessId>)

  function Retain(xs: seq<nat>, keep: set<nat>): (r: seq<nat>)
    ensures |r| <= |xs|
    ensures forall x :: x in r <==> x in xs && x in keep
    ensures (forall i, j :: 0 <= i < j < |xs| ==> xs[i] != xs[j]) ==> forall i, j :: 0 <= i < j < |r| ==> r[i] != r[j]
  {
    if xs == [] then []
    else
      var n := |xs| - 1;
      var rest := Retain(xs[..n], keep);
      if xs[n] in keep then rest + [xs[n]] else rest
  }

  /** The lists as `start` leaves them before it decides. */
  function Pruned(v: Service, running: set<RunId>, open: set<SessId>): Service {
    v.(jobs := Retain(v.jobs, running), weak := Retain(v.weak, open))
  }

  /** The service's own refusal, decided on the pruned lists. */
  function ServiceRefusal(v: Service): Option<Refusal> {
    if v.stopped then Some(Unavailable)
    else if |v.jobs| >= WORK_LIMIT then Some(Busy)
    else if v.semaphoreClosed || v.permits == 0 then Some(Busy)
    else None
  }

  function Started(v: Service, run: RunId, sess: SessId): Service
    requires v.permits > 0
  {
    v.(permits := v.permits - 1, jobs := v.jobs + [run], weak := if sess in v.weak then v.weak else v.weak + [sess])
  }

  function Stopped(v: Service, running: set<RunId>): Service {
    v.(stopped := true, semaphoreClosed := true, weak := [], jobs := Retain(v.jobs, running))
  }

  // ---------------------------------------------------------------- runs

  datatype Supervisor = Waiting | TimedOut | Reaped | PermitDropped | Finished

  /** The two owners of a run: each holds a reference to its permit and one to its admission. */
  datatype Owner = Worker | Supervising

  /** `permit` and `admission` are the shared references still held; the last drop gives back what they share. */
  datatype Run = Run(sess: SessId, gen: nat, request: string, worker: bool, sup: Supervisor,
                     permit: set<Owner>, admission: set<Owner>)

  datatype State = State(svc: Service, sessions: map<SessId, Session>, runs: map<RunId, Run>)

  predicate Unfinished(r: Run) { r.sup != Finished }
  predicate HoldsPermit(r: Run) { r.permit != {} }

  function Running(s: State): set<RunId> { set r | r in s.runs && Unfinished(s.runs[r]) }
  function Holders(s: State): set<RunId> { set r | r in s.runs && HoldsPermit(s.runs[r]) }
  function Workers(s: State): set<RunId> { set r | r in s.runs && s.runs[r].worker }

  /** A weak session can be upgraded while anything still holds it: at least every unfinished run does. */
  ghost predicate HeldByRuns(s: State, held: set<SessId>) {
    forall r :: r in s.runs && Unfinished(s.runs[r]) ==> s.runs[r].sess in held
  }

  function OpenOf(s: State, held: set<SessId>): set<SessId> {
    set x | x in held && x in s.sessions && !s.sessions[x].closed
  }

  datatype Label =
    | Connect(sess: SessId)
    | Start(run: RunId, sess: SessId, request: string, held: set<SessId>, expired: bool)
    | Refused(sess: SessId, held: set<SessId>, expired: bool)
    | Publish(run: RunId) | WorkerExit(run: RunId)
    | Timeout(run: RunId) | Reap(run: RunId) | DropPermit(run: RunId) | Finish(run: RunId)
    | Cancel(sess: SessId, request: string) | Close(sess: SessId)
    | TakeReply(sess: SessId) | DropReply(sess: SessId) | ExpireReply(sess: SessId)
    | Stop(held: set<SessId>)

  /** One owner drops its reference to the run's permit. */
  function PermitDrop(s: State, r: RunId, owner: Owner): State
    requires r in s.runs
  {
    var held := s.runs[r].permit;
    var last := held == {owner};
    s.(runs := s.runs[r := s.runs[r].(permit := held - {owner})],
       svc := if last then s.svc.(permits := s.svc.permits + 1) else s.svc)
  }

  /** One owner drops its reference to the session's admission of the run; the last drop is `ExportRun::drop`. */
  function AdmissionDrop(s: State, r: RunId, owner: Owner): State
    requires r in s.runs && s.runs[r].sess in s.sessions
  {
    var run := s.runs[r];
    var last := run.admission == {owner};
    s.(runs := s.runs[r := run.(admission := run.admission - {owner})],
       sessions := if last then s.sessions[run.sess := RunDropped(s.sessions[run.sess], run.gen)] else s.sessions)
  }

  function SupNow(s: State, r: RunId, sup: Supervisor): State
    requires r in s.runs
  {
    s.(runs := s.runs[r := s.runs[r].(sup := sup)])
  }

  /** The worker's closure returns, or unwinds: both of its references go before its handle resolves. */
  function WorkerGone(s: State, r: RunId): State
    requires r in s.runs && s.runs[r].sess in s.sessions
  {
    var s' := AdmissionDrop(PermitDrop(s, r, Worker), r, Worker);
    s'.(runs := s'.runs[r := s'.runs[r].(worker := false)])
  }

  predicate SupIs(s: State, r: RunId, allowed: set<Supervisor>) { r in s.runs && s.runs[r].sup in allowed }

  ghost predicate Enabled(s: State, l: Label) {
    match l
    case Connect(x) => x !in s.sessions
    case Start(r, x, _, held, expired) =>
      && r !in s.runs && x in s.sessions && x in held && HeldByRuns(s, held)
      && ServiceRefusal(Pruned(s.svc, Running(s), OpenOf(s, held))).None?
      && AdmitRefusal(s.sessions[x], expired).None?
    case Refused(x, held, expired) =>
      && x in s.sessions && x in held && HeldByRuns(s, held)
      && (ServiceRefusal(Pruned(s.svc, Running(s), OpenOf(s, held))).Some?
          || AdmitRefusal(s.sessions[x], expired).Some?)
    case Publish(r) =>
      && r in s.runs && s.runs[r].worker && s.runs[r].sess in s.sessions
      && MayPublish(s.sessions[s.runs[r].sess], s.runs[r].gen)
    case WorkerExit(r) => r in s.runs && s.runs[r].worker && s.runs[r].sess in s.sessions
    case Timeout(r) => SupIs(s, r, {Waiting}) && s.runs[r].sess in s.sessions
    case Reap(r) => SupIs(s, r, {Waiting, TimedOut}) && !s.runs[r].worker
    case DropPermit(r) => SupIs(s, r, {Reaped})
    case Finish(r) => SupIs(s, r, {PermitDropped}) && s.runs[r].sess in s.sessions
    case Cancel(x, _) => x in s.sessions
    case Close(x) => x in s.sessions
    case TakeReply(x) =>
      && x in s.sessions && !s.sessions[x].closed
      && s.sessions[x].slot.Some? && !s.sessions[x].slot.value.taken
    case DropReply(x) => x in s.sessions && s.sessions[x].slot.Some? && s.sessions[x].slot.value.taken
    case ExpireReply(x) => x in s.sessions && s.sessions[x].slot.Some? && !s.sessions[x].slot.value.taken
    case Stop(held) => HeldByRuns(s, held)
  }

  /** Every session the service still lists and can upgrade is closed. */
  function ClosedAll(s: State, held: set<SessId>): map<SessId, Session> {
    map x | x in s.sessions :: if x in s.svc.weak && x in held then ClosedSession(s.sessions[x]) else s.sessions[x]
  }

  ghost function Apply(s: State, l: Label): State
    requires Enabled(s, l)
  {
    match l
    case Connect(x) => s.(sessions := s.sessions[x := Session(false, 0, None, None)])
    case Start(r, x, request, held, expired) =>
      var sess := AdmitTried(s.sessions[x], request, expired);
      State(Started(Pruned(s.svc, Running(s), OpenOf(s, held)), r, x),
            s.sessions[x := sess],
            s.runs[r := Run(x, sess.gen, request, true, Waiting, {Worker, Supervising}, {Worker, Supervising})])
    case Refused(x, held, expired) =>
      var svc := Pruned(s.svc, Running(s), OpenOf(s, held));
      var tried := s.sessions[x := AdmitTried(s.sessions[x], "", expired)];
      State(svc, if ServiceRefusal(svc).Some? then s.sessions else tried, s.runs)
    case Publish(r) =>
      s.(sessions := s.sessions[s.runs[r].sess := Published(s.sessions[s.runs[r].sess], s.runs[r].gen)])
    case WorkerExit(r) => WorkerGone(s, r)
    case Timeout(r) =>
      s.(runs := s.runs[r := s.runs[r].(sup := TimedOut)],
         sessions := s.sessions[s.runs[r].sess := CancelledBy(s.sessions[s.runs[r].sess], s.runs[r].request)])
    case Reap(r) => SupNow(s, r, Reaped)
    case DropPermit(r) => SupNow(PermitDrop(s, r, Supervising), r, PermitDropped)
    case Finish(r) => SupNow(AdmissionDrop(s, r, Supervising), r, Finished)
    case Cancel(x, request) => s.(sessions := s.sessions[x := CancelledBy(s.sessions[x], request)])
    case Close(x) => s.(sessions := s.sessions[x := ClosedSession(s.sessions[x])])
    case TakeReply(x) =>
      var slot := s.sessions[x].slot.value;
      s.(sessions := s.sessions[x := s.sessions[x].(slot := if slot.valid then Some(slot.(taken := true)) else None)])
    case DropReply(x) => s.(sessions := s.sessions[x := s.sessions[x].(slot := None)])
    case ExpireReply(x) => s.(sessions := s.sessions[x := s.sessions[x].(slot := None)])
    case Stop(held) => s.(svc := Stopped(s.svc, Running(s)), sessions := ClosedAll(s, held))
  }

  ghost predicate Initial(s: State) {
    s == State(Service(WORK_LIMIT, false, false, [], []), map[], map[])
  }

  /** The states `ss` of a run of the system with labels `ls`. */
  ghost predicate IsRun(ss: seq<State>, ls: seq<Label>) {
    && |ss| == |ls| + 1 && Initial(ss[0])
    && forall i {:trigger ls[i]} :: 0 <= i < |ls| ==> Enabled(ss[i], ls[i]) && ss[i + 1] == Apply(ss[i], ls[i])
  }
}
