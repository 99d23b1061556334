/**
  `kill_if_descendant_with` on the pidfd path, raced by the whole machine: any process may be
  forked, die, be reaped or change its parent between the open, the stat read and the signal, and
  a reaped pid may be handed out again at once.
 */
module PidfdKill {

  type Id = nat

  datatype Life = Live | Zombie | Reaped

  /** A process, by an identity that is never reused. `parent` is the pid `/proc` shows. */
  datatype Proc = Proc(pid: int, parent: int, life: Life)

  datatype Caller =
    | Start
    | Pinned(id: Id)                    // the pidfd is open
    | Checked(id: Id, inTree: bool)     // the stat read is done
    | Over

  datatype State = State(pid: int, tree: set<int>, procs: map<Id, Proc>, caller: Caller)

  datatype Label =
    | Fork(id: Id, pid: int, parent: int) | Exit(id: Id) | Reap(id: Id) | Reparent(id: Id, parent: int)
    | Open(id: Id) | OpenGone | Stat | StatFails | Send | Refrain

  /** The process a pid names now: pids of unreaped processes are distinct. */
  ghost predicate Names(s: State, pid: int, id: Id) {
    id in s.procs && s.procs[id].pid == pid && s.procs[id].life != Reaped
  }

  ghost predicate DistinctPids(s: State) {
    forall a, b, pid :: Names(s, pid, a) && Names(s, pid, b) ==> a == b
  }

  /** What the stat read by pid answers: the parent check, false for a vanished process. */
  ghost predicate InTree(s: State) {
    exists id :: Names(s, s.pid, id) && s.procs[id].parent in s.tree
  }

  ghost predicate Enabled(s: State, l: Label) {
    match l
    case Fork(id, pid, _) => id !in s.procs && forall d :: !Names(s, pid, d)
    case Exit(id) => id in s.procs && s.procs[id].life == Live
    case Reap(id) => id in s.procs && s.procs[id].life == Zombie
    case Reparent(id, _) => id in s.procs
    case Open(id) => s.caller == Start && Names(s, s.pid, id)
    case OpenGone => s.caller == Start && forall id :: !Names(s, s.pid, id)
    case Stat => s.caller.Pinned?
    case StatFails => s.caller.Pinned?
    case Send => s.caller.Checked? && s.caller.inTree && s.caller.id in s.procs
    case Refrain => s.caller.Checked? && !s.caller.inTree
  }

  ghost function Apply(s: State, l: Label): State
    requires Enabled(s, l)
  {
    match l
    case Fork(id, pid, parent) => s.(procs := s.procs[id := Proc(pid, parent, Live)])
    case Exit(id) => s.(procs := s.procs[id := s.procs[id].(life := Zombie)])
    case Reap(id) => s.(procs := s.procs[id := s.procs[id].(life := Reaped)])
    case Reparent(id, parent) => s.(procs := s.procs[id := s.procs[id].(parent := parent)])
    case Open(id) => s.(caller := Pinned(id))
    case OpenGone => s.(caller := Over)
    case Stat => s.(caller := Checked(s.caller.id, InTree(s)))
    case StatFails => s.(caller := Over)
    case Send =>
      // The pidfd names the pinned process: a reaped one answers ESRCH, a zombie feels nothing.
      var id := s.caller.id;
      s.(caller := Over,
         procs := if s.procs[id].life == Live then s.procs[id := s.procs[id].(life := Zombie)] else s.procs)
    case Refrain => s.(caller := Over)
  }

  /** The states `ss` of a run with labels `ls`. */
  ghost predicate IsRun(ss: seq<State>, ls: seq<Label>) {
    && |ss| == |ls| + 1 && DistinctPids(ss[0]) && ss[0].caller == Start
    && forall i {:trigger ls[i]} :: 0 <= i < |ls| ==> Enabled(ss[i], ls[i]) && ss[i + 1] == Apply(ss[i], ls[i])
  }

  /** What the run so far remembers about the open and the check. */
  ghost predicate Remembers(ss: seq<State>, ls: seq<Label>, n: nat)
    requires IsRun(ss, ls) && n <= |ls|
  {
    var s := ss[n];
    && DistinctPids(s) && s.pid == ss[0].pid && s.tree == ss[0].tree
    && (s.caller.Pinned? || s.caller.Checked? ==>
          && s.caller.id in s.procs && s.procs[s.caller.id].pid == s.pid
          && Open(s.caller.id) in ls[..n])
    && (s.caller.Checked? && s.caller.inTree && s.procs[s.caller.id].life != Reaped ==>
          exists j :: 0 <= j < n && ls[j] == Stat && ss[j].caller == Pinned(s.caller.id)
                      && Names(ss[j], s.pid, s.caller.id) && ss[j].procs[s.caller.id].parent in s.tree)
  }

  lemma StepKeepsPids(s: State, l: Label)
    requires DistinctPids(s) && Enabled(s, l)
    ensures DistinctPids(Apply(s, l))
  {
    var s' := Apply(s, l);
    forall a, b, pid | Names(s', pid, a) && Names(s', pid, b) ensures a == b {
      if !l.Fork? { assert Names(s, pid, a) && Names(s, pid, b); }
      else {
        if a != l.id { assert Names(s, pid, a); }
        if b != l.id { assert Names(s, pid, b); }
      }
    }
  }

  lemma {:induction false} RunRemembers(ss: seq<State>, ls: seq<Label>, n: nat)
    requires IsRun(ss, ls) && n <= |ls|
    ensures Remembers(ss, ls, n)
  {
    if n > 0 {
      var m := n - 1;
      RunRemembers(ss, ls, m);
      var s, l, s' := ss[m], ls[m], ss[n];
      StepKeepsPids(s, l);
      assert ls[..n] == ls[..m] + [l];
      if s'.caller.Checked? && s'.caller.inTree && s'.procs[s'.caller.id].life != Reaped {
        if l == Stat {
          assert Names(s, s.pid, s.caller.id);
          assert 0 <= m < n && ls[m] == Stat;
        } else {
          var j :| 0 <= j < m && ls[j] == Stat && ss[j].caller == Pinned(s.caller.id)
                   && Names(ss[j], s.pid, s.caller.id) && ss[j].procs[s.caller.id].parent in s.tree;
        }
      }
    }
  }

  /**
    SIGKILL reaches only the process that was pinned at the open, under the pid asked for, and
    only if that same process, at the moment of the parent check, was still the one the pid named
    and its parent pid was in the tree.
   */
  lemma SignalHitsOnlyTheCheckedProcess(ss: seq<State>, ls: seq<Label>, k: nat, victim: Id)
    requires IsRun(ss, ls) && k < |ls| && !ls[k].Exit?
    requires victim in ss[k].procs && ss[k].procs[victim].life == Live
    requires victim in ss[k + 1].procs && ss[k + 1].procs[victim].life != Live
    ensures ls[k] == Send && ss[k].caller == Checked(victim, true)
    ensures ss[k].procs[victim].pid == ss[0].pid
    ensures Open(victim) in ls[..k]
    ensures exists j :: 0 <= j < k && ls[j] == Stat && ss[j].caller == Pinned(victim)
                        && Names(ss[j], ss[0].pid, victim) && ss[j].procs[victim].parent in ss[0].tree
  {
    RunRemembers(ss, ls, k);
    assert ss[k + 1] == Apply(ss[k], ls[k]);
  }

  /** One call signals at most once. */
  lemma {:induction false} OneSignalPerCall(ss: seq<State>, ls: seq<Label>, i: nat, k: nat)
    requires IsRun(ss, ls) && i < k < |ls| && ls[i] == Send
    ensures ls[k] != Send && ss[k].caller == Over
  {
    assert Enabled(ss[k], ls[k]);
    assert ss[k] == Apply(ss[k - 1], ls[k - 1]);
    if i < k - 1 { OneSignalPerCall(ss, ls, i, k - 1); assert Enabled(ss[k - 1], ls[k - 1]); }
  }

  /**
    The check decides by the process the pid names at that moment: the signal may follow exactly when
    its parent pid is in the tree. A vanished process, or one with another parent, is left alone.
   */
  lemma SignalsExactlyInTree(ss: seq<State>, ls: seq<Label>, k: nat)
    requires IsRun(ss, ls) && k < |ls| && ls[k] == Stat
    ensures ss[k + 1].procs == ss[k].procs && ss[k + 1].caller.Checked?
    ensures Enabled(ss[k + 1], Send) <==>
      exists id :: id in ss[k].procs && ss[k].procs[id].pid == ss[0].pid && ss[k].procs[id].life != Reaped
                   && ss[k].procs[id].parent in ss[0].tree
    ensures Enabled(ss[k + 1], Refrain) <==> !Enabled(ss[k + 1], Send)
  {
    RunRemembers(ss, ls, k);
    RunRemembers(ss, ls, k + 1);
    var s := ss[k];
    assert InTree(s) <==> exists id :: Names(s, s.pid, id) && s.procs[id].parent in s.tree;
    forall id | id in s.procs && s.procs[id].pid == s.pid && s.procs[id].life != Reaped ensures Names(s, s.pid, id) {}
  }

  /** A signal sent to a live process kills it, and nothing else changes. */
  lemma SignalKills(ss: seq<State>, ls: seq<Label>, k: nat)
    requires IsRun(ss, ls) && k < |ls| && ls[k] == Send
    ensures ss[k].caller.Checked? && ss[k].caller.id in ss[k].procs && ss[k].caller.id in ss[k + 1].procs
    ensures var id := ss[k].caller.id;
      && ss[k + 1].procs[id].life != Live
      && ss[k + 1].procs[id].life == (if ss[k].procs[id].life == Live then Zombie else ss[k].procs[id].life)
      && forall d :: d in ss[k].procs && d != id ==> d in ss[k + 1].procs && ss[k + 1].procs[d] == ss[k].procs[d]
  {
    assert ss[k + 1] == Apply(ss[k], ls[k]) && Enabled(ss[k], ls[k]);
  }

  /** Undisturbed, a call on a live process whose parent is in the tree kills it. */
  lemma UndisturbedCallKills(s: State, id: Id) returns (ss: seq<State>, ls: seq<Label>)
    requires DistinctPids(s) && s.caller == Start
    requires id in s.procs && s.procs[id].pid == s.pid && s.procs[id].life == Live && s.procs[id].parent in s.tree
    ensures IsRun(ss, ls) && ss[0] == s && ls == [Open(id), Stat, Send]
    ensures ss[3].procs == s.procs[id := s.procs[id].(life := Zombie)]
  {
    assert Names(s, s.pid, id);
    var s1 := Apply(s, Open(id));
    assert Names(s1, s1.pid, id);
    var s2 := Apply(s1, Stat);
    var s3 := Apply(s2, Send);
    ss, ls := [s, s1, s2, s3], [Open(id), Stat, Send];
  }
}
