/**
  The change-then-announce protocol of the filtering pause. Any number of actors change the pause
  under its own lock and later announce it: under the cache lock they read the pause state and
  send it. The read and the send are separate steps, and the pause may change between them. Two
  clocks run: the monotonic one and the wall clock, which may also be stepped.
 */
module PauseAnnounce {
  import opened Options

  /** The pause record: both deadlines (ms) and the GUI-session generation that set it. */
  datatype Pause = Pause(monoDeadline: int, wallDeadline: int, owner: nat)

  /** What `FilterPauseState` carries: the end of the pause on the wall clock, or not paused. */
  type Shown = Option<int>

  const ALLOWED_MS: set<int> := {300_000, 1_800_000, 3_600_000}

  function Min(a: int, b: int): int { if a < b then a else b }

  predicate IsActive(p: Pause, mono: int, wall: int) { mono < p.monoDeadline && wall < p.wallDeadline }

  /** `FilterPause::state`: the earlier of the two deadlines, on the wall clock. */
  function Read(pause: Option<Pause>, mono: int, wall: int): Shown {
    match pause
    case Some(p) =>
      if IsActive(p, mono, wall) then Some(wall + Min(p.monoDeadline - mono, p.wallDeadline - wall)) else None
    case None => None
  }

  /** An announcement: the value read, and the clocks at the read. */
  datatype Announcement = Announcement(shown: Shown, mono: int, wall: int)

  type Actor = nat

  /** `owing`: changed, not yet announced. `lock`: the cache lock's holder with what it read. */
  datatype State = State(
    mono: int, wall: int, pause: Option<Pause>, owing: set<Actor>, lock: Option<(Actor, Announcement)>,
    last: Announcement)

  datatype Label =
    | Request(a: Actor, duration: int, owner: nat)   // the pump: applied if allowed, announced always
    | Ignored(a: Actor)                              // the pump: the sender's session is gone
    | Resume(a: Actor)
    | ClearOwner(a: Actor, generation: nat)          // the last GUI session ended
    | TakeExpired(a: Actor)                          // the expiry task's tick
    | ReadState(a: Actor) | Rebroadcast(a: Actor) | Send(a: Actor)
    | Tick(dt: nat) | StepWall(delta: int)

  predicate Lapsed(s: State) { s.pause.Some? && !IsActive(s.pause.value, s.mono, s.wall) }

  function Current(s: State): Shown { Read(s.pause, s.mono, s.wall) }

  predicate Free(s: State, a: Actor) { a !in s.owing && !(s.lock.Some? && s.lock.value.0 == a) }

  predicate Enabled(s: State, l: Label) {
    match l
    case Request(a, _, _) => Free(s, a)
    case Ignored(a) => Free(s, a)
    case Resume(a) => Free(s, a)
    case ClearOwner(a, _) => Free(s, a)
    case TakeExpired(a) => Free(s, a)
    case ReadState(a) => a in s.owing && s.lock.None?
    case Rebroadcast(a) => s.lock.None? && Free(s, a)
    case Send(a) => s.lock.Some? && s.lock.value.0 == a
    case Tick(_) => true
    case StepWall(_) => true
  }

  function Apply(s: State, l: Label): State
    requires Enabled(s, l)
  {
    match l
    case Request(a, duration, owner) =>
      s.(owing := s.owing + {a},
         pause := if duration in ALLOWED_MS then Some(Pause(s.mono + duration, s.wall + duration, owner)) else s.pause)
    case Ignored(a) => s.(owing := s.owing + {a})
    case Resume(a) => s.(owing := s.owing + {a}, pause := None)
    case ClearOwner(a, generation) =>
      if s.pause.Some? && s.pause.value.owner < generation then s.(owing := s.owing + {a}, pause := None) else s
    case TakeExpired(a) =>
      if Lapsed(s) then s.(owing := s.owing + {a}, pause := None) else s
    case ReadState(a) =>
      s.(owing := s.owing - {a}, lock := Some((a, Announcement(Current(s), s.mono, s.wall))))
    case Rebroadcast(a) => s.(lock := Some((a, Announcement(Current(s), s.mono, s.wall))))
    case Send(a) => s.(last := s.lock.value.1, lock := None)
    case Tick(dt) => s.(mono := s.mono + dt, wall := s.wall + dt)
    case StepWall(delta) => s.(wall := s.wall + delta)
  }

  ghost predicate IsRun(ss: seq<State>, ls: seq<Label>) {
    && |ss| == |ls| + 1
    && ss[0].pause.None? && ss[0].owing == {} && ss[0].lock.None?
    && ss[0].last == Announcement(None, ss[0].mono, ss[0].wall)
    && forall i {:trigger ls[i]} :: 0 <= i < |ls| ==> Enabled(ss[i], ls[i]) && ss[i + 1] == Apply(ss[i], ls[i])
  }

  // ---------------------------------------------------------------- the invariant

  /** The announcement is what the present pause record read at the announcement's own clocks. */
  ghost predicate Faithful(s: State, ann: Announcement) {
    ann.shown == Read(s.pause, ann.mono, ann.wall) && ann.mono <= s.mono
  }

  /** Nothing is owed and nobody is between read and send. */
  predicate Settled(s: State) { s.owing == {} && s.lock.None? }

  ghost predicate Inv(s: State) {
    || s.owing != {}
    || (s.lock.Some? && Faithful(s, s.lock.value.1))
    || (s.lock.None? && Faithful(s, s.last))
  }

  lemma {:induction false} AnnouncedOrOwed(ss: seq<State>, ls: seq<Label>, n: nat)
    requires IsRun(ss, ls) && n <= |ls|
    ensures Inv(ss[n])
  {
    if n > 0 {
      AnnouncedOrOwed(ss, ls, n - 1);
      assert ss[n] == Apply(ss[n - 1], ls[n - 1]);
    }
  }

  // ---------------------------------------------------------------- what may pause, and for how long

  /** The step ends the pause `p`, if it is the recorded one. */
  predicate Ends(s: State, l: Label, p: Pause) {
    match l
    case Resume(_) => true
    case ClearOwner(_, generation) => p.owner < generation
    case TakeExpired(_) => s.mono >= p.monoDeadline || s.wall >= p.wallDeadline
    case Request(_, duration, _) => duration == 300_000 || duration == 1_800_000 || duration == 3_600_000
    case _ => false
  }

  /** What each step does to the pause record: only an allowed request sets one, and only the ends above clear it. */
  lemma PauseStep(s: State, l: Label)
    requires Enabled(s, l)
    ensures var s' := Apply(s, l);
      && (l.Request? && (l.duration == 300_000 || l.duration == 1_800_000 || l.duration == 3_600_000) ==>
            && s'.pause == Some(Pause(s.mono + l.duration, s.wall + l.duration, l.owner))
            && Current(s') == Some(s.wall + l.duration))
      && (l.Resume? ==> s'.pause == None)
      && (!l.Request? && !l.Resume? ==>
            s'.pause == if s.pause.Some? && Ends(s, l, s.pause.value) then None else s.pause)
      && (l.Request? && !(l.duration == 300_000 || l.duration == 1_800_000 || l.duration == 3_600_000) ==>
            s'.pause == s.pause)
  {}

  /** The recorded pause was set by request `k`, and nothing since ended it. */
  ghost predicate SetBy(ss: seq<State>, ls: seq<Label>, n: nat, k: int)
    requires |ss| == |ls| + 1 && n <= |ls|
  {
    && 0 <= k < n && ls[k].Request? && ss[n].pause.Some?
    && ls[k].duration in {300_000, 1_800_000, 3_600_000}
    && ss[n].pause.value == Pause(ss[k].mono + ls[k].duration, ss[k].wall + ls[k].duration, ls[k].owner)
    && forall j :: k < j < n ==> !Ends(ss[j], ls[j], ss[n].pause.value)
  }

  lemma {:induction false} PauseHasRequest(ss: seq<State>, ls: seq<Label>, n: nat)
    requires IsRun(ss, ls) && n <= |ls| && ss[n].pause.Some?
    ensures exists k :: SetBy(ss, ls, n, k)
  {
    if n > 0 {
      var m := n - 1;
      assert ss[n] == Apply(ss[m], ls[m]) && Enabled(ss[m], ls[m]);
      PauseStep(ss[m], ls[m]);
      hide Apply, Enabled;
      if ls[m].Request? && ls[m].duration in {300_000, 1_800_000, 3_600_000} {
        assert SetBy(ss, ls, n, m);
      } else {
        PauseHasRequest(ss, ls, m);
        var k :| SetBy(ss, ls, m, k);
        assert SetBy(ss, ls, n, k);
      }
    }
  }

  /**
    Filtering is off only under a request: of 5, 30 or 60 minutes, less than that long ago on both
    clocks, with no resume, no other allowed request and no loss of its sender's last session since.
   */
  lemma PausedOnlyByARecentRequest(ss: seq<State>, ls: seq<Label>, n: nat)
    requires IsRun(ss, ls) && n <= |ls| && Current(ss[n]).Some?
    ensures exists k ::
      && SetBy(ss, ls, n, k)
      && ss[n].mono - ss[k].mono < ls[k].duration && ss[n].wall - ss[k].wall < ls[k].duration
  {
    PauseHasRequest(ss, ls, n);
  }

  /**
    What is shown: the pause ends at the earlier of its two deadlines, put on the wall clock; past
    either it is over.
   */
  lemma ShownEnd(s: State)
    ensures Current(s).Some? <==>
      s.pause.Some? && s.mono < s.pause.value.monoDeadline && s.wall < s.pause.value.wallDeadline
    ensures Current(s).Some? ==>
      var left := Current(s).value - s.wall; var p := s.pause.value;
      && left <= p.monoDeadline - s.mono && left <= p.wallDeadline - s.wall
      && (left == p.monoDeadline - s.mono || left == p.wallDeadline - s.wall)
  {}

  /** Every change of the pause record leaves its actor owing an announcement, which shows the state at its read. */
  lemma ChangesAreOwed(s: State, l: Label)
    requires Enabled(s, l) && Apply(s, l).pause != s.pause
    ensures l.Request? || l.Resume? || l.ClearOwner? || l.TakeExpired?
    ensures l.a in Apply(s, l).owing
    ensures l.a !in s.owing
  {}

  // ---------------------------------------------------------------- what the GUIs see

  /** How far the wall clock has fallen behind since the pause began; a lead counts as 0. */
  function Setback(p: Pause, mono: int, wall: int): int {
    var lead := (wall - mono) - (p.wallDeadline - p.monoDeadline);
    if lead < 0 then -lead else 0
  }

  /**
    The pause stands at the clocks `mono`, `wall` as it stood at `mono'`, `wall'`: over in both,
    or running with one setback.
   */
  predicate SameStanding(p: Pause, mono: int, wall: int, mono': int, wall': int) {
    && IsActive(p, mono, wall) == IsActive(p, mono', wall')
    && (IsActive(p, mono, wall) ==> Setback(p, mono, wall) == Setback(p, mono', wall'))
  }

  /**
    Over every run, lapses and clock steps included: once nothing is owed, the last broadcast is the
    current pause state exactly when no pause is recorded, or the recorded one stands now as it
    stood at the clocks of the broadcast's read.
   */
  lemma BroadcastIsCurrentIffSameStanding(ss: seq<State>, ls: seq<Label>, n: nat)
    requires IsRun(ss, ls) && n <= |ls| && Settled(ss[n])
    ensures var s := ss[n];
      s.last.shown == Current(s) <==>
      s.pause.None? || SameStanding(s.pause.value, s.mono, s.wall, s.last.mono, s.last.wall)
  {
    AnnouncedOrOwed(ss, ls, n);
  }

  /**
    While the wall clock is not stepped, every reachable state owes an announcement or has one
    between read and send, or its last broadcast is the current state; except exactly when a pause
    has run out that was still running when the broadcast was read.
   */
  lemma LastBroadcastIsCurrent(ss: seq<State>, ls: seq<Label>, n: nat)
    requires IsRun(ss, ls) && n <= |ls|
    requires ss[n].wall - ss[n].mono == ss[n].last.wall - ss[n].last.mono
    ensures var s := ss[n];
      Settled(s) ==>
        (s.last.shown == Current(s) <==> !(Lapsed(s) && IsActive(s.pause.value, s.last.mono, s.last.wall)))
  {
    if Settled(ss[n]) {
      BroadcastIsCurrentIffSameStanding(ss, ls, n);
      AnnouncedOrOwed(ss, ls, n);
    }
  }

  /**
    With clock steps the announced end of a running pause can be wrong. It is right exactly when the
    pause already ran at the read and the wall clock's setback since it began is the one of the read.
   */
  lemma AnnouncedEndIsRightIffSameSetback(ss: seq<State>, ls: seq<Label>, n: nat)
    requires IsRun(ss, ls) && n <= |ls| && Settled(ss[n]) && ss[n].pause.Some? && !Lapsed(ss[n])
    ensures var s := ss[n]; var p := s.pause.value;
      s.last.shown == Current(s) <==>
      IsActive(p, s.last.mono, s.last.wall) && Setback(p, s.mono, s.wall) == Setback(p, s.last.mono, s.last.wall)
  {
    BroadcastIsCurrentIffSameStanding(ss, ls, n);
  }

  /** A run in which one backward step of the wall clock leaves a settled, wrong announcement. */
  lemma WallStepMakesAnnouncementStale() returns (ss: seq<State>, ls: seq<Label>)
    ensures IsRun(ss, ls) && |ls| == 4
    ensures Settled(ss[4]) && !Lapsed(ss[4]) && ss[4].last.shown != Current(ss[4])
  {
    var s0 := State(0, 0, None, {}, None, Announcement(None, 0, 0));
    ls := [Request(7, 300_000, 1), ReadState(7), Send(7), StepWall(-1)];
    var s1 := Apply(s0, ls[0]);
    var s2 := Apply(s1, ls[1]);
    var s3 := Apply(s2, ls[2]);
    var s4 := Apply(s3, ls[3]);
    ss := [s0, s1, s2, s3, s4];
  }

  /**
    A run in which the clocks alone outdate the broadcast: the pause lapsed after the read, its
    tick is still to come.
   */
  lemma LapseOutdatesAnnouncement() returns (ss: seq<State>, ls: seq<Label>)
    ensures IsRun(ss, ls) && |ls| == 4
    ensures Settled(ss[4]) && Lapsed(ss[4]) && ss[4].last.shown != Current(ss[4])
  {
    var s0 := State(0, 0, None, {}, None, Announcement(None, 0, 0));
    ls := [Request(7, 300_000, 1), ReadState(7), Send(7), Tick(300_000)];
    var s1 := Apply(s0, ls[0]);
    var s2 := Apply(s1, ls[1]);
    var s3 := Apply(s2, ls[2]);
    var s4 := Apply(s3, ls[3]);
    ss := [s0, s1, s2, s3, s4];
  }

  /** A run in which the pause lapsed before the read, so the broadcast is right although no tick has come. */
  lemma LapseBeforeTheReadIsHarmless() returns (ss: seq<State>, ls: seq<Label>)
    ensures IsRun(ss, ls) && |ls| == 4
    ensures Settled(ss[4]) && Lapsed(ss[4]) && ss[4].last.shown == Current(ss[4])
  {
    var s0 := State(0, 0, None, {}, None, Announcement(None, 0, 0));
    ls := [Request(7, 300_000, 1), Tick(300_000), ReadState(7), Send(7)];
    var s1 := Apply(s0, ls[0]);
    var s2 := Apply(s1, ls[1]);
    var s3 := Apply(s2, ls[2]);
    var s4 := Apply(s3, ls[3]);
    ss := [s0, s1, s2, s3, s4];
  }
}
