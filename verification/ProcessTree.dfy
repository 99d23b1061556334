/**
  The scanner's process tree: forks, exits that reparent children to the nearest subreaper,
  reaps and immediate pid reuse. The scanner (`root`) is a subreaper.
 */
module ProcessTree {
  import opened Options
  import opened ProcSnapshot
  import opened SweepLoop

  /** `birth` orders processes by creation; `ours` marks what was forked below the scanner. */
  datatype Proc = Proc(parent: int, alive: bool, subreaper: bool, birth: nat, ours: bool)

  /** The unreaped processes by pid. Parent 0 is the kernel. */
  datatype State = State(root: int, procs: map<int, Proc>, next: nat)

  ghost predicate Wf(s: State) {
    && 0 !in s.procs && s.root in s.procs && s.procs[s.root].alive && s.procs[s.root].subreaper
    && forall p :: p in s.procs ==>
         && s.procs[p].birth < s.next
         && (s.procs[p].parent != 0 ==>
               && s.procs[p].parent in s.procs && s.procs[s.procs[p].parent].alive
               && s.procs[s.procs[p].parent].birth < s.procs[p].birth)
  }

  /** `p` is a descendant of the scanner. */
  ghost predicate Below(s: State, p: int)
    requires Wf(s)
    decreases if p in s.procs then s.procs[p].birth + 1 else 0
  {
    p in s.procs && p != s.root && (s.procs[p].parent == s.root || Below(s, s.procs[p].parent))
  }

  /** Where the children of `p` go when it dies: its nearest ancestor that is a subreaper. */
  ghost function Reaper(s: State, p: int): int
    requires Wf(s) && p in s.procs
    decreases s.procs[p].birth
  {
    var a := s.procs[p].parent;
    if a == 0 || s.procs[a].subreaper then a else Reaper(s, a)
  }

  datatype Label =
    | Fork(parent: int, child: int) | Exit(p: int) | Reap(p: int) | SetSubreaper(p: int, on: bool)

  ghost predicate Enabled(s: State, l: Label) {
    match l
    case Fork(parent, child) => parent in s.procs && s.procs[parent].alive && child !in s.procs && child != 0
    case Exit(p) => p in s.procs && s.procs[p].alive && p != s.root
    case Reap(p) => p in s.procs && !s.procs[p].alive
    case SetSubreaper(p, _) => p in s.procs && p != s.root
  }

  ghost function Orphaned(s: State, p: int): map<int, Proc>
    requires Wf(s) && p in s.procs
  {
    map q | q in s.procs ::
      if q == p then s.procs[q].(alive := false)
      else if s.procs[q].parent == p then s.procs[q].(parent := Reaper(s, p))
      else s.procs[q]
  }

  ghost function Apply(s: State, l: Label): State
    requires Wf(s) && Enabled(s, l)
  {
    match l
    case Fork(parent, child) =>
      s.(procs := s.procs[child := Proc(parent, true, false, s.next, parent == s.root || s.procs[parent].ours)],
         next := s.next + 1)
    case Exit(p) => s.(procs := Orphaned(s, p))
    case Reap(p) => s.(procs := s.procs - {p})
    case SetSubreaper(p, on) => s.(procs := s.procs[p := s.procs[p].(subreaper := on)])
  }

  // ---------------------------------------------------------------- every step keeps the tree

  lemma {:induction false} ReaperIsAncestor(s: State, p: int)
    requires Wf(s) && p in s.procs
    ensures var r := Reaper(s, p);
      r != p && (r != 0 ==> r in s.procs && s.procs[r].alive && s.procs[r].birth < s.procs[p].birth)
    ensures Below(s, p) ==> Reaper(s, p) == s.root || Below(s, Reaper(s, p))
    ensures !Below(s, p) && p != s.root ==> Reaper(s, p) != s.root && !Below(s, Reaper(s, p))
    decreases s.procs[p].birth
  {
    var a := s.procs[p].parent;
    if a != 0 && !s.procs[a].subreaper { ReaperIsAncestor(s, a); }
  }

  lemma StepKeepsWf(s: State, l: Label)
    requires Wf(s) && Enabled(s, l)
    ensures Wf(Apply(s, l))
  {
    if l.Exit? { ReaperIsAncestor(s, l.p); }
  }

  /** No step moves an existing process into or out of the scanner's subtree. */
  lemma {:induction false} StepKeepsBelow(s: State, l: Label, q: int)
    requires Wf(s) && Enabled(s, l) && Wf(Apply(s, l)) && q in s.procs && q in Apply(s, l).procs
    ensures Below(Apply(s, l), q) <==> Below(s, q)
    decreases s.procs[q].birth
  {
    var s' := Apply(s, l);
    var a := s.procs[q].parent;
    if l.Exit? && a == l.p && q != l.p {
      var r := Reaper(s, a);
      ReaperIsAncestor(s, a);
      assert s'.procs[q].parent == r;
      if r != 0 { StepKeepsBelow(s, l, r); }
    } else if a != 0 {
      assert s'.procs[q].parent == a;
      StepKeepsBelow(s, l, a);
    }
  }

  /** The mark of what the scanner's subtree forked agrees with the tree. */
  ghost predicate Marked(s: State)
    requires Wf(s)
  {
    forall p :: p in s.procs ==> (s.procs[p].ours <==> Below(s, p))
  }

  lemma StepKeepsMarks(s: State, l: Label)
    requires Wf(s) && Enabled(s, l) && Marked(s)
    ensures Wf(Apply(s, l)) && Marked(Apply(s, l))
  {
    StepKeepsWf(s, l);
    var s' := Apply(s, l);
    forall p | p in s'.procs ensures s'.procs[p].ours <==> Below(s', p) {
      if p in s.procs {
        StepKeepsBelow(s, l, p);
      } else {
        var parent := s'.procs[p].parent;
        StepKeepsBelow(s, l, parent);
      }
    }
  }

  ghost predicate IsRun(ss: seq<State>, ls: seq<Label>) {
    && |ss| == |ls| + 1 && Wf(ss[0])
    && forall i {:trigger ls[i]} :: 0 <= i < |ls| ==>
         Wf(ss[i]) && Enabled(ss[i], ls[i]) && ss[i + 1] == Apply(ss[i], ls[i])
  }

  lemma RunWf(ss: seq<State>, ls: seq<Label>, n: nat)
    requires IsRun(ss, ls) && n <= |ls|
    ensures Wf(ss[n])
  {
    if n > 0 { StepKeepsWf(ss[n - 1], ls[n - 1]); }
  }

  /**
    Containment: over every run, what was forked at or below the scanner stays below it until it
    is reaped, and nothing else ever gets there.
   */
  lemma {:induction false} DescendantsNeverEscape(ss: seq<State>, ls: seq<Label>, n: nat)
    requires IsRun(ss, ls) && n <= |ls| && Marked(ss[0])
    ensures Wf(ss[n]) && Marked(ss[n]) && ss[n].root == ss[0].root
  {
    if n > 0 {
      DescendantsNeverEscape(ss, ls, n - 1);
      StepKeepsMarks(ss[n - 1], ls[n - 1]);
    }
  }

  // ---------------------------------------------------------------- nothing left to kill

  ghost predicate NoneAlive(s: State)
    requires Wf(s)
  {
    forall p :: Below(s, p) ==> !s.procs[p].alive
  }

  lemma StepKeepsNone(s: State, l: Label)
    requires Wf(s) && Enabled(s, l) && NoneAlive(s) && !(l.Fork? && l.parent == s.root)
    ensures Wf(Apply(s, l)) && NoneAlive(Apply(s, l))
  {
    StepKeepsWf(s, l);
    var s' := Apply(s, l);
    forall p | Below(s', p) ensures !s'.procs[p].alive {
      if p in s.procs {
        StepKeepsBelow(s, l, p);
      } else {
        StepKeepsBelow(s, l, l.parent);
      }
    }
  }

  lemma {:induction false} NoneAliveStays(ss: seq<State>, ls: seq<Label>, i: nat, n: nat)
    requires IsRun(ss, ls) && i <= n <= |ls| && Wf(ss[i]) && NoneAlive(ss[i])
    requires forall k :: i <= k < |ls| && ls[k].Fork? ==> ls[k].parent != ss[k].root
    ensures Wf(ss[n]) && NoneAlive(ss[n])
  {
    if i < n {
      NoneAliveStays(ss, ls, i, n - 1);
      StepKeepsNone(ss[n - 1], ls[n - 1]);
    }
  }

  // ---------------------------------------------------------------- snapshots

  /** The listing shows the whole process table at one moment. */
  ghost predicate Shows(es: seq<Entry>, s: State) {
    && (forall e :: e in es ==> e.pid in s.procs && e == EntryOf(s, e.pid))
    && (forall p :: p in s.procs ==> EntryOf(s, p) in es)
  }

  ghost function EntryOf(s: State, p: int): Entry
    requires p in s.procs
  {
    Entry(p, s.procs[p].parent, !s.procs[p].alive)
  }

  lemma {:induction false} BelowIsReachable(es: seq<Entry>, s: State, p: int)
    requires Wf(s) && Shows(es, s) && Below(s, p)
    ensures Reachable(es, s.root, p)
    decreases s.procs[p].birth
  {
    var a := s.procs[p].parent;
    assert EntryOf(s, p) in es;
    assert Edge(es, a, p);
    if a == s.root { ReachRoot(es, s.root); } else { BelowIsReachable(es, s, a); }
    ReachChild(es, s.root, a, p);
  }

  lemma {:induction false} PathIsBelow(es: seq<Entry>, s: State, p: int, path: seq<int>)
    requires Wf(s) && Shows(es, s) && IsPath(es, s.root, p, path)
    ensures p == s.root || Below(s, p)
    decreases |path|
  {
    if |path| > 1 {
      var m := |path| - 1;
      assert Edge(es, path[m - 1], path[m]);
      forall i | 0 <= i < m - 1 ensures Edge(es, path[..m][i], path[..m][i + 1]) {
        assert Edge(es, path[i], path[i + 1]);
      }
      PathIsBelow(es, s, path[m - 1], path[..m]);
    }
  }

  /** A pass over an atomic snapshot lists exactly the scanner's live descendants. */
  lemma SnapshotListsLiveDescendants(es: seq<Entry>, s: State, live: seq<int>, p: int)
    requires Wf(s) && Shows(es, s) && IsLiveList(es, s.root, live)
    ensures p in live <==> Below(s, p) && s.procs[p].alive
  {
    LiveListIsExact(es, s.root, live, p);
    if p in live {
      var path :| IsPath(es, s.root, p, path);
      PathIsBelow(es, s, p, path);
      var e :| e in es && e.pid == p && !e.dead;
      assert e == EntryOf(s, p);
    }
    if Below(s, p) && s.procs[p].alive {
      BelowIsReachable(es, s, p);
      assert EntryOf(s, p) in es && EntryOf(s, p).pid == p && !EntryOf(s, p).dead;
    }
  }

  /** A listing that shows a whole state: its processes, each under its parent, and nothing else. */
  ghost predicate ListingShows(listing: seq<Probe>, s: State) {
    forall e :: Seen(e) in listing <==> e.pid in s.procs && e == EntryOf(s, e.pid)
  }

  /** A complete pass over such a listing is the list of the scanner's live descendants. */
  lemma PassListsLiveDescendants(listing: seq<Probe>, s: State, scan: Scan)
    requires Wf(s) && ListingShows(listing, s) && ScanOf(listing, s.root, scan) && scan.Complete?
    ensures forall p :: p in scan.live <==> Below(s, p) && s.procs[p].alive
  {
    hide IsLiveList;
    var es := Entries(listing);
    EntriesListed(listing);
    assert Shows(es, s);
    forall p ensures p in scan.live <==> Below(s, p) && s.procs[p].alive {
      SnapshotListsLiveDescendants(es, s, scan.live, p);
    }
  }

  /** Each complete pass looked at one moment of the run, later passes no earlier. */
  ghost predicate Atomic(log: seq<Pass>, root: int, os: Environment, ss: seq<State>, moment: seq<nat>) {
    && |moment| == |log|
    && (forall i :: 0 <= i < |ss| ==> ss[i].root == root)
    && (forall i :: 0 <= i < |log| ==> moment[i] < |ss|)
    && (forall i, j :: 0 <= i < j < |log| ==> moment[i] <= moment[j])
    && forall i :: 0 <= i < |log| && log[i].scan.Complete? ==> ListingShows(os.listing(i), ss[moment[i]])
  }

  /**
    What a sweep is for: a pass over an atomic snapshot signals live descendants of the scanner only,
    all of them if the deadline leaves time, and the tree handed to each kill holds that process's
    own parent, so that the parent check admits every listed process.
   */
  lemma EveryListedProcessIsAdmitted(log: seq<Pass>, root: int, start: int, deadline: int, os: Environment,
                                     ss: seq<State>, ls: seq<Label>, moment: seq<nat>, i: nat)
    requires IsRun(ss, ls) && PassesOk(log, root, start, deadline, os) && Atomic(log, root, os, ss, moment)
    requires i < |log| && log[i].scan.Complete?
    ensures Wf(ss[moment[i]])
    ensures forall k :: k in log[i].kills ==>
      && Below(ss[moment[i]], k.pid) && ss[moment[i]].procs[k.pid].alive
      && ss[moment[i]].procs[k.pid].parent in k.tree
    ensures EndOf(log[i], i, os) < deadline ==>
      forall p :: Below(ss[moment[i]], p) && ss[moment[i]].procs[p].alive ==>
        exists k :: k in log[i].kills && k.pid == p
  {
    var at, kills, live := moment[i], log[i].kills, log[i].scan.live;
    RunWf(ss, ls, at);
    assert PassOk(log[i], i, root, deadline, os);
    hide IsRun, IsLiveList, EndOf, KillTime;
    PassListsLiveDescendants(os.listing(i), ss[at], log[i].scan);
    hide ScanOf, ListingShows;
    forall k | k in kills
      ensures Below(ss[at], k.pid) && ss[at].procs[k.pid].alive && ss[at].procs[k.pid].parent in k.tree
    {
      var j :| 0 <= j < |kills| && kills[j] == k;
      assert KillOk(kills[j], j, live, root, os.kill(i, j));
      assert k.pid in live;
      ParentIsListed(ss[at], live, k.pid);
    }
    if EndOf(log[i], i, os) < deadline {
      forall p | p in live ensures exists k :: k in kills && k.pid == p {
        var j :| 0 <= j < |live| && live[j] == p;
        assert KillOk(kills[j], j, live, root, os.kill(i, j));
        assert kills[j] in kills;
      }
    }
  }

  lemma ParentIsListed(s: State, live: seq<int>, p: int)
    requires Wf(s) && Below(s, p) && forall q :: q in live <==> Below(s, q) && s.procs[q].alive
    ensures s.procs[p].parent == s.root || s.procs[p].parent in live
  {}

  /** From state `at` on the scanner forks nothing. */
  ghost predicate ForksNothing(root: int, ls: seq<Label>, at: nat) {
    forall k :: at <= k < |ls| && ls[k].Fork? ==> ls[k].parent != root
  }

  /** An empty pass over an atomic snapshot is final. */
  lemma EmptyPassIsFinal(log: seq<Pass>, root: int, os: Environment, ss: seq<State>, ls: seq<Label>,
                         moment: seq<nat>, i: nat, n: nat)
    requires IsRun(ss, ls) && Atomic(log, root, os, ss, moment)
    requires i < |log| && Empty(log[i]) && ScanOf(os.listing(i), root, log[i].scan)
    requires moment[i] <= n <= |ls| && ForksNothing(root, ls, moment[i])
    ensures Wf(ss[n]) && NoneAlive(ss[n])
  {
    var at := moment[i];
    RunWf(ss, ls, at);
    PassListsLiveDescendants(os.listing(i), ss[at], log[i].scan);
    hide ScanOf, ListingShows;
    assert NoneAlive(ss[at]);
    NoneAliveStays(ss, ls, at, n);
  }

  /** In every run the passes can have seen, nothing below the scanner is alive from the last pass on. */
  ghost predicate LeavesNothing(log: seq<Pass>, root: int, os: Environment)
    requires log != []
  {
    forall ss, ls, moment, n
      | IsRun(ss, ls) && Atomic(log, root, os, ss, moment) && ForksNothing(root, ls, moment[|log| - 1])
        && moment[|log| - 1] <= n <= |ls|
      :: Wf(ss[n]) && NoneAlive(ss[n])
  }

  /**
    End to end: whatever the machine did while the sweep ran, if every complete pass was an atomic
    snapshot and the sweep reported `complete`, then no descendant of the scanner is alive at its
    last pass or in any later state, provided the scanner itself forks nothing from then on.
   */
  method CompleteSweepLeavesNothing(root: int, start: int, deadline: int, os: Environment)
    returns (sweep: Sweep, log: seq<Pass>)
    ensures PassesOk(log, root, start, deadline, os)
    ensures sweep.complete ==> log != [] && LeavesNothing(log, root, os)
  {
    hide PassesOk, LeavesNothing, NextStart, NoEarlierPair, Reckons, IsRun, Atomic, ForksNothing;
    sweep, log := KillDescendants(root, start, deadline, os);
    if sweep.complete {
      LastPassIsEmpty(log, root, start, deadline, os);
      EmptyLastLeavesNothing(log, root, os);
    }
  }

  lemma LastPassIsEmpty(log: seq<Pass>, root: int, start: int, deadline: int, os: Environment)
    requires PassesOk(log, root, start, deadline, os) && EndsWithPair(log)
    ensures log != [] && Empty(log[|log| - 1]) && ScanOf(os.listing(|log| - 1), root, log[|log| - 1].scan)
  {
    assert PassOk(log[|log| - 1], |log| - 1, root, deadline, os);
  }

  lemma EmptyLastLeavesNothing(log: seq<Pass>, root: int, os: Environment)
    requires log != [] && Empty(log[|log| - 1]) && ScanOf(os.listing(|log| - 1), root, log[|log| - 1].scan)
    ensures LeavesNothing(log, root, os)
  {
    hide ScanOf, ListingShows, ForksNothing, NoneAlive, Wf, Empty, Enabled, Apply;
    forall ss, ls, moment: seq<nat>, n
      | IsRun(ss, ls) && Atomic(log, root, os, ss, moment) && ForksNothing(root, ls, moment[|log| - 1])
        && moment[|log| - 1] <= n <= |ls|
      ensures Wf(ss[n]) && NoneAlive(ss[n])
    {
      EmptyPassIsFinal(log, root, os, ss, ls, moment, |log| - 1, n);
    }
  }
}
