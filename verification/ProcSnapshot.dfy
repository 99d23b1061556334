/** One `/proc` pass: the listing becomes a parent map that a worklist walks from the scanner. */
module ProcSnapshot {
  import opened Filters

  type Error = string

  /** One process of the listing. `dead`: a zombie with no other task left. */
  datatype Entry = Entry(pid: int, parent: int, dead: bool)

  /** What reading one directory entry gave. */
  datatype Probe =
    | Vanished                    // the entry or its stat file is gone
    | NotAProcess                 // the name is not a pid
    | Late                        // the deadline passed before this entry
    | Unreadable(error: Error)    // the entry, its stat or its task list cannot be read
    | Seen(entry: Entry)

  datatype Scan = Complete(live: seq<int>) | CutShort | Failed(error: Error)

  predicate Stops(p: Probe) { p.Late? || p.Unreadable? }

  /** The processes a listing shows, in its order. */
  function Entries(listing: seq<Probe>): seq<Entry> {
    if listing == [] then []
    else
      var rest := Entries(listing[..|listing| - 1]);
      var last := listing[|listing| - 1];
      if last.Seen? then rest + [last.entry] else rest
  }

  /** The entries below one parent, in listing order. */
  function Kids(es: seq<Entry>, parent: int): seq<Entry> {
    if es == [] then []
    else
      var rest := Kids(es[..|es| - 1], parent);
      if es[|es| - 1].parent == parent then rest + [es[|es| - 1]] else rest
  }

  /** The entries, as the listing holds them. */
  function AsSeen(es: seq<Entry>): seq<Probe> { seq(|es|, i requires 0 <= i < |es| => Seen(es[i])) }

  /** The processes the listing shows are those of its readable entries, each occurrence in order. */
  lemma {:induction false} EntriesAre(listing: seq<Probe>)
    ensures IsFilter(listing, (p: Probe) => p.Seen?, AsSeen(Entries(listing)))
  {
    hide IsFilter;
    var keep := (p: Probe) => p.Seen?;
    if listing == [] {
      FilterNone(keep);
      assert AsSeen(Entries(listing)) == [];
    } else {
      var n := |listing| - 1;
      var rest, last := Entries(listing[..n]), listing[n];
      EntriesAre(listing[..n]);
      assert listing == listing[..n] + [last];
      if last.Seen? {
        assert AsSeen(rest + [last.entry]) == AsSeen(rest) + [last];
        FilterKeeps(listing[..n], keep, AsSeen(rest), last);
      } else {
        FilterSkips(listing[..n], keep, AsSeen(rest), last);
      }
    }
  }

  /** `es` holds exactly the processes the listing shows. */
  ghost predicate Lists(listing: seq<Probe>, es: seq<Entry>) { forall e :: e in es <==> Seen(e) in listing }

  lemma EntriesListed(listing: seq<Probe>)
    ensures Lists(listing, Entries(listing))
  {
    var es := Entries(listing);
    EntriesAre(listing);
    forall e ensures e in es <==> Seen(e) in listing {
      FilterMembers(listing, (p: Probe) => p.Seen?, AsSeen(es), Seen(e));
      if e in es { var k :| 0 <= k < |es| && es[k] == e; assert AsSeen(es)[k] == Seen(e); }
    }
  }

  /** The children of `parent` in the listing, each occurrence in order. */
  lemma {:induction false} KidsOfListing(listing: seq<Probe>, parent: int)
    ensures IsFilter(listing, (p: Probe) => p.Seen? && p.entry.parent == parent, AsSeen(Kids(Entries(listing), parent)))
  {
    hide IsFilter;
    var keep := (p: Probe) => p.Seen? && p.entry.parent == parent;
    if listing == [] {
      FilterNone(keep);
      assert AsSeen(Kids(Entries(listing), parent)) == [];
    } else {
      var n := |listing| - 1;
      var es, last := Entries(listing[..n]), listing[n];
      var rest := Kids(es, parent);
      KidsOfListing(listing[..n], parent);
      assert listing == listing[..n] + [last];
      if last.Seen? { assert (es + [last.entry])[..|es|] == es; }
      if keep(last) {
        assert AsSeen(rest + [last.entry]) == AsSeen(rest) + [last];
        FilterKeeps(listing[..n], keep, AsSeen(rest), last);
      } else {
        FilterSkips(listing[..n], keep, AsSeen(rest), last);
      }
    }
  }

  lemma {:induction false} KidsAre(es: seq<Entry>, parent: int, e: Entry)
    ensures e in Kids(es, parent) <==> e in es && e.parent == parent
  {
    if es != [] {
      KidsAre(es[..|es| - 1], parent, e);
      assert es == es[..|es| - 1] + [es[|es| - 1]];
    }
  }

  ghost predicate Edge(es: seq<Entry>, parent: int, pid: int) {
    exists e :: e in es && e.parent == parent && e.pid == pid
  }

  /** `path` walks down the parent map from `root` to `pid`. */
  ghost predicate IsPath(es: seq<Entry>, root: int, pid: int, path: seq<int>) {
    && path != [] && path[0] == root && path[|path| - 1] == pid
    && forall i :: 0 <= i < |path| - 1 ==> Edge(es, path[i], path[i + 1])
  }

  ghost predicate Reachable(es: seq<Entry>, root: int, pid: int) {
    exists path :: IsPath(es, root, pid, path)
  }

  ghost predicate NoRepeats(s: seq<int>) {
    forall i, j :: 0 <= i < j < |s| ==> s[i] != s[j]
  }

  lemma ReachRoot(es: seq<Entry>, root: int)
    ensures Reachable(es, root, root)
  {
    assert IsPath(es, root, root, [root]);
  }

  lemma ReachChild(es: seq<Entry>, root: int, parent: int, pid: int)
    requires Reachable(es, root, parent) && Edge(es, parent, pid)
    ensures Reachable(es, root, pid)
  {
    var path :| IsPath(es, root, parent, path);
    var longer := path + [pid];
    forall i | 0 <= i < |longer| - 1 ensures Edge(es, longer[i], longer[i + 1]) {
      if i < |path| - 1 { assert Edge(es, path[i], path[i + 1]); }
    }
    assert IsPath(es, root, pid, longer);
  }

  ghost predicate Closed(es: seq<Entry>, seen: set<int>) {
    forall e :: e in es && e.parent in seen ==> e.pid in seen
  }

  lemma {:induction false} ClosedHoldsPaths(es: seq<Entry>, root: int, seen: set<int>, pid: int, path: seq<int>)
    requires Closed(es, seen) && root in seen && IsPath(es, root, pid, path)
    ensures pid in seen
    decreases |path|
  {
    if |path| > 1 {
      var m := |path| - 1;
      assert Edge(es, path[m - 1], path[m]);
      forall i | 0 <= i < m - 1 ensures Edge(es, path[..m][i], path[..m][i + 1]) {
        assert Edge(es, path[i], path[i + 1]);
      }
      ClosedHoldsPaths(es, root, seen, path[m - 1], path[..m]);
    }
  }

  /** Every pid the walk can meet. */
  ghost function Pids(es: seq<Entry>, root: int): set<int> {
    {root} + set e | e in es :: e.pid
  }

  /** What holds between the visited set, the stack and the list of live processes. */
  ghost predicate Walked(es: seq<Entry>, root: int, seen: set<int>, live: seq<int>) {
    && root in seen && seen <= Pids(es, root)
    && (forall p :: p in seen ==> Reachable(es, root, p))
    && NoRepeats(live) && root !in live
    && (forall p :: p in live ==> p in seen && exists e :: e in es && e.pid == p && !e.dead)
    && (forall p :: p in seen && p != root && p !in live ==> exists e :: e in es && e.pid == p && e.dead)
  }

  /** Visiting one unvisited child keeps the relation. */
  lemma VisitKeeps(es: seq<Entry>, root: int, seen: set<int>, live: seq<int>, e: Entry)
    requires Walked(es, root, seen, live) && e in es && e.parent in seen && e.pid !in seen
    ensures Walked(es, root, seen + {e.pid}, if e.dead then live else live + [e.pid])
  {
    var live' := if e.dead then live else live + [e.pid];
    assert Edge(es, e.parent, e.pid);
    ReachChild(es, root, e.parent, e.pid);
    forall p | p in live' ensures p in seen + {e.pid} && exists d :: d in es && d.pid == p && !d.dead {
      if p in live { } else { assert e in es && e.pid == p && !e.dead; }
    }
    forall p | p in seen + {e.pid} && p != root && p !in live'
      ensures exists d :: d in es && d.pid == p && d.dead
    {
      if p == e.pid && e.pid !in seen { assert e.dead; } else { assert p in seen && p !in live; }
    }
  }

  /** The children table, filled entry by entry; a pass that met an error or the deadline is no evidence. */
  method CollectChildren(listing: seq<Probe>) returns (children: map<int, seq<Entry>>, stop: Probe)
    ensures Stops(stop) <==> exists i :: 0 <= i < |listing| && Stops(listing[i])
    ensures Stops(stop) ==>
      exists i :: 0 <= i < |listing| && listing[i] == stop && forall j :: 0 <= j < i ==> !Stops(listing[j])
    ensures !Stops(stop) ==>
      forall p :: (if p in children then children[p] else []) == Kids(Entries(listing), p)
    ensures !Stops(stop) ==>
      forall p :: IsFilter(listing, (q: Probe) => q.Seen? && q.entry.parent == p,
                           AsSeen(if p in children then children[p] else []))
  {
    children, stop := map[], Vanished;
    for i := 0 to |listing|
      invariant forall j :: 0 <= j < i ==> !Stops(listing[j])
      invariant forall p :: (if p in children then children[p] else []) == Kids(Entries(listing[..i]), p)
    {
      assert listing[..i + 1][..i] == listing[..i];
      if Stops(listing[i]) { return children, listing[i]; }
      if listing[i].Seen? {
        var e := listing[i].entry;
        var siblings := if e.parent in children then children[e.parent] else [];
        assert (Entries(listing[..i]) + [e])[..|Entries(listing[..i])|] == Entries(listing[..i]);
        children := children[e.parent := siblings + [e]];
      }
    }
    assert listing[..|listing|] == listing;
    forall p ensures IsFilter(listing, (q: Probe) => q.Seen? && q.entry.parent == p,
                              AsSeen(if p in children then children[p] else [])) {
      KidsOfListing(listing, p);
    }
  }

  /** The pops that remain safe: everything visited and off the stack has its children visited. */
  ghost predicate Frontier(es: seq<Entry>, seen: set<int>, stack: seq<int>) {
    && (forall p :: p in stack ==> p in seen)
    && (forall e :: e in es && e.parent in seen && e.parent !in stack ==> e.pid in seen)
  }

  /** The inner loop of the walk: visit the children of one popped node. */
  method VisitKids(ghost es: seq<Entry>, ghost root: int, ghost parent: int, kids: seq<Entry>,
                   seen: set<int>, stack: seq<int>, live: seq<int>)
    returns (seen': set<int>, stack': seq<int>, live': seq<int>)
    requires Walked(es, root, seen, live) && parent in seen && kids == Kids(es, parent)
    requires Frontier(es, seen, stack + [parent])
    ensures Walked(es, root, seen', live') && Frontier(es, seen', stack')
    ensures seen <= seen' && (seen' == seen ==> stack' == stack)
  {
    hide Walked, Kids;
    seen', stack', live' := seen, stack, live;
    for i := 0 to |kids|
      invariant Walked(es, root, seen', live')
      invariant seen <= seen' && (seen' == seen ==> stack' == stack)
      invariant forall p :: p in stack' ==> p in seen'
      invariant forall p :: p in stack ==> p in stack'
      invariant forall p :: p in seen' && p !in seen ==> p in stack'
      invariant forall j :: 0 <= j < i ==> kids[j].pid in seen'
    {
      KidsAre(es, parent, kids[i]);
      if kids[i].pid !in seen' {
        VisitKeeps(es, root, seen', live', kids[i]);
        if !kids[i].dead { live' := live' + [kids[i].pid]; }
        seen' := seen' + {kids[i].pid};
        stack' := stack' + [kids[i].pid];
      }
    }
    forall e | e in es && e.parent in seen' && e.parent !in stack' ensures e.pid in seen' {
      if e.parent == parent { KidsAre(es, parent, e); }
    }
  }

  /**
    What the walk owes its caller: no repeats, never the root, and the non-dead processes
    reachable from it. A pid listed twice is included when every entry for it is alive, and only
    when some entry is.
   */
  ghost predicate IsLiveList(es: seq<Entry>, root: int, live: seq<int>) {
    && NoRepeats(live) && root !in live
    && (forall p :: p in live ==> Reachable(es, root, p) && exists e :: e in es && e.pid == p && !e.dead)
    && (forall p :: p != root && Reachable(es, root, p) && (forall e :: e in es && e.pid == p ==> !e.dead) ==>
          p in live)
  }

  /** The worklist over the children table: terminates on every parent map, cycles included. */
  method Walk(ghost es: seq<Entry>, root: int, children: map<int, seq<Entry>>) returns (live: seq<int>)
    requires forall p :: (if p in children then children[p] else []) == Kids(es, p)
    ensures IsLiveList(es, root, live)
  {
    live := [];
    var seen := {root};
    var stack := [root];
    ReachRoot(es, root);
    while stack != []
      invariant Walked(es, root, seen, live) && Frontier(es, seen, stack)
      decreases Pids(es, root) - seen, |stack|
    {
      var parent := stack[|stack| - 1];
      assert stack[..|stack| - 1] + [parent] == stack;
      var kids := if parent in children then children[parent] else [];
      seen, stack, live := VisitKids(es, root, parent, kids, seen, stack[..|stack| - 1], live);
    }
    forall p | Reachable(es, root, p) ensures p in seen {
      var path :| IsPath(es, root, p, path);
      ClosedHoldsPaths(es, root, seen, p, path);
    }
  }

  /** Nothing in these entries ends the pass. */
  ghost predicate Readable(listing: seq<Probe>) {
    forall i :: 0 <= i < |listing| ==> !listing[i].Late? && !listing[i].Unreadable?
  }

  /**
    What one pass says of its listing: the live processes below the root, if every entry was read in
    time; otherwise the first thing that ended it. Neither of the latter reads as "none".
   */
  ghost predicate ScanOf(listing: seq<Probe>, root: int, scan: Scan) {
    match scan
    case Complete(live) => Readable(listing) && forall es | Lists(listing, es) :: IsLiveList(es, root, live)
    case CutShort => exists i :: 0 <= i < |listing| && listing[i] == Late && Readable(listing[..i])
    case Failed(error) => exists i :: 0 <= i < |listing| && listing[i] == Unreadable(error) && Readable(listing[..i])
  }

  lemma LiveListOfSame(es: seq<Entry>, fs: seq<Entry>, root: int, live: seq<int>)
    requires IsLiveList(es, root, live) && forall e :: e in es <==> e in fs
    ensures IsLiveList(fs, root, live)
  {
    forall p ensures Reachable(es, root, p) <==> Reachable(fs, root, p) {
      SamePaths(es, fs, root, p);
      SamePaths(fs, es, root, p);
    }
  }

  lemma SamePaths(es: seq<Entry>, fs: seq<Entry>, root: int, p: int)
    requires forall e :: e in es <==> e in fs
    ensures Reachable(es, root, p) ==> Reachable(fs, root, p)
  {
    if Reachable(es, root, p) {
      var path :| IsPath(es, root, p, path);
      forall i | 0 <= i < |path| - 1 ensures Edge(fs, path[i], path[i + 1]) { assert Edge(es, path[i], path[i + 1]); }
      assert IsPath(fs, root, p, path);
    }
  }

  /** `live_descendants`. */
  method LiveDescendants(root: int, listing: seq<Probe>) returns (scan: Scan)
    ensures ScanOf(listing, root, scan)
  {
    hide IsLiveList, IsFilter;
    var children, stop := CollectChildren(listing);
    if stop.Late? { return CutShort; }
    if stop.Unreadable? { return Failed(stop.error); }
    var live := Walk(Entries(listing), root, children);
    EntriesListed(listing);
    forall es | Lists(listing, es) ensures IsLiveList(es, root, live) {
      LiveListOfSame(Entries(listing), es, root, live);
    }
    return Complete(live);
  }

  /** No pid is listed twice: what reading `/proc` once gives. */
  ghost predicate UniquePids(es: seq<Entry>) {
    forall a, b :: a in es && b in es && a.pid == b.pid ==> a == b
  }

  /** With every pid listed once, the list is exactly the non-dead processes reachable from the root. */
  lemma LiveListIsExact(es: seq<Entry>, root: int, live: seq<int>, p: int)
    requires IsLiveList(es, root, live) && UniquePids(es)
    ensures p in live <==> p != root && Reachable(es, root, p) && exists e :: e in es && e.pid == p && !e.dead
  {}
}
