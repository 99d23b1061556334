/** `kill_descendants`: kill pass after pass until two consecutive passes find nothing alive. */
module SweepLoop {
  import opened Options
  import opened ProcSnapshot

  datatype Sweep = Sweep(complete: bool, failures: nat, firstError: Option<Error>)

  datatype Kill = Kill(pid: int, tree: set<int>, error: Option<Error>)

  /** One pass of the loop: when it began, what the scan gave and the kills that followed it, in order. */
  datatype Pass = Pass(start: int, scan: Scan, kills: seq<Kill>)

  /** What the operating system answers: the `i`-th listing, the `j`-th kill of pass `i`, and the time each takes. */
  datatype Environment = Environment(
    listing: nat -> seq<Probe>, kill: (nat, nat) -> Option<Error>, scanTime: nat -> nat, killTime: (nat, nat) -> nat)

  const PAUSE: nat := 5

  predicate Empty(p: Pass) { p.scan == Complete([]) }

  function ScanError(scan: Scan): seq<Error> { if scan.Failed? then [scan.error] else [] }

  function KillErrors(kills: seq<Kill>): seq<Error> {
    if kills == [] then []
    else KillErrors(kills[..|kills| - 1]) + match kills[|kills| - 1].error case None => [] case Some(e) => [e]
  }

  /** The errors of all scans and kills, in the order in which they happened. */
  function Errors(log: seq<Pass>): seq<Error> {
    if log == [] then []
    else Errors(log[..|log| - 1]) + ScanError(log[|log| - 1].scan) + KillErrors(log[|log| - 1].kills)
  }

  // ---------------------------------------------------------------- what the accounts count

  /** Where something failed: pass `i`'s scan at `(i, -1)`, its `j`-th kill at `(i, j)`. */
  ghost predicate FailedAt(log: seq<Pass>, i: int, j: int, error: Error) {
    && 0 <= i < |log|
    && (j == -1 ==> log[i].scan == Failed(error))
    && (j != -1 ==> 0 <= j < |log[i].kills| && log[i].kills[j].error == Some(error))
  }

  ghost function Failures(log: seq<Pass>): set<(int, int)> {
    (set i | 0 <= i < |log| && log[i].scan.Failed? :: (i, -1))
    + (set i, j | 0 <= i < |log| && 0 <= j < |log[i].kills| && log[i].kills[j].error.Some? :: (i, j))
  }

  ghost function PassFailures(p: Pass, n: int): set<(int, int)> {
    (if p.scan.Failed? then {(n, -1)} else {})
    + (set j | 0 <= j < |p.kills| && p.kills[j].error.Some? :: (n, j))
  }

  lemma {:induction false} KillErrorsCount(kills: seq<Kill>, n: int)
    ensures |KillErrors(kills)| == |set j | 0 <= j < |kills| && kills[j].error.Some? :: (n, j)|
  {
    var all := set j | 0 <= j < |kills| && kills[j].error.Some? :: (n, j);
    if kills == [] {
      assert all == {};
    } else {
      var m := |kills| - 1;
      KillErrorsCount(kills[..m], n);
      var rest := set j | 0 <= j < |kills[..m]| && kills[..m][j].error.Some? :: (n, j);
      assert all == if kills[m].error.Some? then rest + {(n, m)} else rest;
      assert (n, m) !in rest;
    }
  }

  lemma PassFailuresCount(p: Pass, n: int)
    ensures |PassFailures(p, n)| == |ScanError(p.scan)| + |KillErrors(p.kills)|
  {
    hide KillErrors;
    KillErrorsCount(p.kills, n);
    var kills := set j | 0 <= j < |p.kills| && p.kills[j].error.Some? :: (n, j);
    assert (n, -1) !in kills;
    assert PassFailures(p, n) == if p.scan.Failed? then kills + {(n, -1)} else kills;
  }

  lemma FailuresExtend(log: seq<Pass>, p: Pass)
    ensures Failures(log + [p]) == Failures(log) + PassFailures(p, |log|) && Failures(log) !! PassFailures(p, |log|)
  {
    var all := log + [p];
    forall i | 0 <= i < |log| ensures all[i] == log[i] {}
    forall x | x in Failures(log) + PassFailures(p, |log|) ensures x in Failures(all) {
      if x.0 < |log| { assert all[x.0] == log[x.0]; } else { assert all[x.0] == p; }
    }
  }

  lemma NoPassNoFailure()
    ensures Failures([]) == {}
  {}

  lemma FailedIsCounted(log: seq<Pass>, i: int, j: int, error: Error)
    requires FailedAt(log, i, j, error)
    ensures (i, j) in Failures(log)
  {}

  /** The accounts count every failed scan and every failed kill, once. */
  lemma {:induction false} ErrorsCount(log: seq<Pass>)
    ensures |Errors(log)| == |Failures(log)|
  {
    hide KillErrors, ScanError, Failures, PassFailures;
    if log == [] {
      NoPassNoFailure();
    } else {
      var n := |log| - 1;
      ErrorsCount(log[..n]);
      PassFailuresCount(log[n], n);
      assert log == log[..n] + [log[n]];
      FailuresExtend(log[..n], log[n]);
    }
  }

  /** Nothing failed before `(i, j)`. */
  ghost predicate NoneBefore(log: seq<Pass>, i: int, j: int) {
    forall a, b, e :: FailedAt(log, a, b, e) ==> a > i || (a == i && b >= j)
  }

  ghost predicate IsFirst(log: seq<Pass>, error: Error) {
    exists i, j :: FailedAt(log, i, j, error) && NoneBefore(log, i, j)
  }

  lemma {:induction false} FirstKillError(kills: seq<Kill>) returns (j: int)
    requires KillErrors(kills) != []
    ensures 0 <= j < |kills| && kills[j].error == Some(KillErrors(kills)[0])
    ensures forall b :: 0 <= b < j ==> kills[b].error.None?
  {
    var m := |kills| - 1;
    if KillErrors(kills[..m]) == [] {
      j := m;
      NoneFailed(kills[..m]);
      forall b | 0 <= b < m ensures kills[b].error.None? { assert kills[b] == kills[..m][b]; }
    } else {
      j := FirstKillError(kills[..m]);
      forall b | 0 <= b < j ensures kills[b].error.None? { assert kills[b] == kills[..m][b]; }
    }
  }

  lemma {:induction false} NoneFailed(kills: seq<Kill>)
    requires KillErrors(kills) == []
    ensures forall b :: 0 <= b < |kills| ==> kills[b].error.None?
  {
    if kills != [] {
      NoneFailed(kills[..|kills| - 1]);
      forall b | 0 <= b < |kills| - 1 ensures kills[b].error.None? { assert kills[b] == kills[..|kills| - 1][b]; }
    }
  }

  lemma FirstStays(log: seq<Pass>, p: Pass, error: Error)
    requires IsFirst(log, error)
    ensures IsFirst(log + [p], error)
  {
    var i, j :| FailedAt(log, i, j, error) && NoneBefore(log, i, j);
    var all := log + [p];
    assert FailedAt(all, i, j, error);
    forall a, b, e | FailedAt(all, a, b, e) ensures a > i || (a == i && b >= j) {
      if a < |log| { assert FailedAt(log, a, b, e); }
    }
    assert NoneBefore(all, i, j);
  }

  lemma FirstOfLast(log: seq<Pass>, p: Pass)
    requires Failures(log) == {} && ScanError(p.scan) + KillErrors(p.kills) != []
    ensures IsFirst(log + [p], (ScanError(p.scan) + KillErrors(p.kills))[0])
  {
    var all, n := log + [p], |log|;
    forall a, b, e | FailedAt(all, a, b, e) ensures a == n { FailedIsLast(log, p, a, b, e); }
    hide KillErrors;
    if p.scan.Failed? {
      assert FailedAt(all, n, -1, p.scan.error) && NoneBefore(all, n, -1);
    } else {
      var j := FirstKillError(p.kills);
      assert FailedAt(all, n, j, KillErrors(p.kills)[0]);
      assert NoneBefore(all, n, j);
    }
  }

  lemma FailedIsLast(log: seq<Pass>, p: Pass, a: int, b: int, e: Error)
    requires Failures(log) == {} && FailedAt(log + [p], a, b, e)
    ensures a == |log|
  {
    if FailedAt(log, a, b, e) { FailedIsCounted(log, a, b, e); }
  }

  /** The first error kept is that of the earliest failure. */
  lemma {:induction false} FirstErrorIsEarliest(log: seq<Pass>)
    requires Errors(log) != []
    ensures IsFirst(log, Errors(log)[0])
  {
    hide IsFirst, Failures, KillErrors, ScanError;
    var n := |log| - 1;
    assert log == log[..n] + [log[n]];
    if Errors(log[..n]) != [] {
      FirstErrorIsEarliest(log[..n]);
      FirstStays(log[..n], log[n], Errors(log[..n])[0]);
    } else {
      ErrorsCount(log[..n]);
      FirstOfLast(log[..n], log[n]);
    }
  }

  // ---------------------------------------------------------------- passes

  /** The tree handed to every kill of a pass is exactly the pass's own processes and the scanner. */
  ghost predicate IsTree(tree: set<int>, live: seq<int>, root: int) {
    forall p :: p in tree <==> p == root || p in live
  }

  /** The kill sent to the `j`-th process of a scan. */
  ghost predicate KillOk(k: Kill, j: nat, live: seq<int>, root: int, error: Option<Error>) {
    j < |live| && k.pid == live[j] && IsTree(k.tree, live, root) && k.error == error
  }

  /** The time before the `j`-th kill of pass `i`, whose kills begin at `now`. */
  function KillTime(os: Environment, i: nat, now: int, j: nat): int {
    if j == 0 then now else KillTime(os, i, now, j - 1) + os.killTime(i, j - 1)
  }

  function EndOf(p: Pass, i: nat, os: Environment): int { KillTime(os, i, p.start + os.scanTime(i), |p.kills|) }

  /**
    Pass `i` begins before the deadline and signals what its own scan found, in order, with its own
    tree, as long as the deadline has not passed.
   */
  ghost predicate PassOk(p: Pass, i: nat, root: int, deadline: int, os: Environment) {
    && p.start < deadline && ScanOf(os.listing(i), root, p.scan)
    && (!p.scan.Complete? ==> p.kills == [])
    && (p.scan.Complete? ==>
          && |p.kills| <= |p.scan.live| && (|p.kills| < |p.scan.live| ==> EndOf(p, i, os) >= deadline)
          && AllSent(p.kills, p.scan.live, root, i, p.start + os.scanTime(i), deadline, os))
  }

  /** These kills of pass `i`, from `now` on, went to the scan's processes in order, each before the deadline. */
  ghost predicate AllSent(kills: seq<Kill>, live: seq<int>, root: int, i: nat, now: int, deadline: int,
                          os: Environment) {
    forall j :: 0 <= j < |kills| ==>
      KillOk(kills[j], j, live, root, os.kill(i, j)) && KillTime(os, i, now, j) < deadline
  }

  /** Every pass is as above, and follows the one before after the pause. */
  ghost predicate PassesOk(log: seq<Pass>, root: int, start: int, deadline: int, os: Environment) {
    && (forall i :: 0 <= i < |log| ==> PassOk(log[i], i, root, deadline, os))
    && (log != [] ==> log[0].start == start)
    && forall i :: 0 <= i < |log| - 1 ==> log[i + 1].start == EndOf(log[i], i, os) + 5
  }

  /** The moment the loop would begin another pass. */
  ghost function NextStart(log: seq<Pass>, start: int, os: Environment): int {
    if log == [] then start else EndOf(log[|log| - 1], |log| - 1, os) + 5
  }

  ghost predicate EndsWithPair(log: seq<Pass>) {
    |log| >= 2 && Empty(log[|log| - 2]) && Empty(log[|log| - 1])
  }

  /** Two empty passes in a row end the loop, so nothing ever follows them. */
  ghost predicate NoEarlierPair(log: seq<Pass>) {
    forall i :: 0 <= i < |log| - 2 ==> !(Empty(log[i]) && Empty(log[i + 1]))
  }

  ghost predicate Accounts(sweep: Sweep, errors: seq<Error>) {
    && sweep.failures == |errors|
    && sweep.firstError == if errors == [] then None else Some(errors[0])
  }

  function Note(sweep: Sweep, error: Option<Error>): Sweep {
    match error
    case None => sweep
    case Some(e) =>
      sweep.(failures := sweep.failures + 1, firstError := if sweep.firstError.None? then Some(e) else sweep.firstError)
  }

  /** The record so far. */
  ghost predicate Record(log: seq<Pass>, root: int, start: int, deadline: int, os: Environment) {
    PassesOk(log, root, start, deadline, os) && NoEarlierPair(log)
  }

  /** The sweep's numbers are those of its passes: how many scans and kills failed, and the earliest failure's error. */
  ghost predicate Reckons(sweep: Sweep, log: seq<Pass>) {
    && sweep.failures == |Failures(log)|
    && (if Failures(log) == {} then sweep.firstError == None
        else sweep.firstError.Some? && IsFirst(log, sweep.firstError.value))
  }

  lemma AccountsReckon(sweep: Sweep, log: seq<Pass>)
    requires Accounts(sweep, Errors(log))
    ensures Reckons(sweep, log)
  {
    hide Errors, Failures, IsFirst;
    ErrorsCount(log);
    if Errors(log) != [] { FirstErrorIsEarliest(log); }
  }

  lemma RecordPass(log: seq<Pass>, p: Pass, root: int, start: int, deadline: int, os: Environment)
    requires Record(log, root, start, deadline, os) && !EndsWithPair(log)
    requires PassOk(p, |log|, root, deadline, os) && p.start == NextStart(log, start, os)
    ensures Record(log + [p], root, start, deadline, os)
  {
    hide PassOk, EndOf;
  }

  lemma ErrorsExtend(log: seq<Pass>, p: Pass)
    ensures Errors(log + [p]) == Errors(log) + ScanError(p.scan) + KillErrors(p.kills)
  {
    hide KillErrors, ScanError;
    assert (log + [p])[..|log|] == log;
  }

  /** The kills of one pass, in order, until the deadline. */
  method SignalAll(root: int, live: seq<int>, pass: nat, sweep: Sweep, now: int, deadline: int, os: Environment,
                   ghost errors: seq<Error>)
    returns (sweep': Sweep, now': int, kills: seq<Kill>)
    requires Accounts(sweep, errors)
    ensures now' == KillTime(os, pass, now, |kills|) && sweep'.complete == sweep.complete
    ensures |kills| <= |live| && (|kills| < |live| ==> now' >= deadline)
    ensures AllSent(kills, live, root, pass, now, deadline, os)
    ensures Accounts(sweep', errors + KillErrors(kills))
  {
    sweep', now', kills := sweep, now, [];
    assert errors + KillErrors(kills) == errors;
    var tree := (set p | p in live) + {root};
    assert IsTree(tree, live, root);
    assert AllSent(kills, live, root, pass, now, deadline, os);
    hide IsTree, KillErrors, Accounts, Note, AllSent;
    for i := 0 to |live|
      invariant now' == KillTime(os, pass, now, i) && sweep'.complete == sweep.complete && |kills| == i
      invariant AllSent(kills, live, root, pass, now, deadline, os)
      invariant Accounts(sweep', errors + KillErrors(kills))
    {
      if now' >= deadline { return; }
      var error := os.kill(pass, i);
      now' := now' + os.killTime(pass, i);
      NoteAccounts(sweep', errors, kills, Kill(live[i], tree, error));
      SentOneMore(kills, Kill(live[i], tree, error), live, root, pass, now, deadline, os);
      sweep' := Note(sweep', error);
      kills := kills + [Kill(live[i], tree, error)];
    }
  }

  lemma SentOneMore(kills: seq<Kill>, k: Kill, live: seq<int>, root: int, i: nat, now: int, deadline: int,
                    os: Environment)
    requires AllSent(kills, live, root, i, now, deadline, os) && KillTime(os, i, now, |kills|) < deadline
    requires KillOk(k, |kills|, live, root, os.kill(i, |kills|))
    ensures AllSent(kills + [k], live, root, i, now, deadline, os)
  {
    hide KillOk, KillTime;
  }

  lemma NoteAccounts(sweep: Sweep, errors: seq<Error>, kills: seq<Kill>, kill: Kill)
    requires Accounts(sweep, errors + KillErrors(kills))
    ensures Accounts(Note(sweep, kill.error), errors + KillErrors(kills + [kill]))
    ensures Note(sweep, kill.error).complete == sweep.complete
  {
    assert (kills + [kill])[..|kills|] == kills;
  }

  lemma {:induction false} TimePasses(os: Environment, i: nat, now: int, j: nat)
    ensures KillTime(os, i, now, j) >= now
  {
    if j > 0 { TimePasses(os, i, now, j - 1); }
  }

  /** One pass: scan, then signal what it found. */
  method ScanPass(root: int, pass: nat, sweep: Sweep, now: int, deadline: int, os: Environment,
                  ghost errors: seq<Error>)
    returns (sweep': Sweep, now': int, p: Pass)
    requires Accounts(sweep, errors) && now < deadline
    ensures p.start == now <= now' == EndOf(p, pass, os) && sweep'.complete == sweep.complete
    ensures PassOk(p, pass, root, deadline, os)
    ensures Accounts(sweep', errors + ScanError(p.scan) + KillErrors(p.kills))
  {
    hide KillErrors, KillOk, ScanOf;
    NoKillErrors();
    var scan := LiveDescendants(root, os.listing(pass));
    sweep', now', p := sweep, now + os.scanTime(pass), Pass(now, scan, []);
    match scan {
      case Failed(e) => sweep' := Note(sweep, Some(e));
      case CutShort =>
      case Complete(live) =>
        assert errors + ScanError(scan) == errors;
        if live != [] {
          var kills;
          ghost var begin := now';
          sweep', now', kills := SignalAll(root, live, pass, sweep, now', deadline, os, errors);
          TimePasses(os, pass, begin, |kills|);
          p := Pass(now, scan, kills);
        }
    }
  }

  /**
    The loop between passes: everything accounted for, no pair of empty passes yet, one counted if
    the last was empty.
   */
  ghost predicate Looping(log: seq<Pass>, sweep: Sweep, emptyPasses: int) {
    && !sweep.complete && !EndsWithPair(log) && Accounts(sweep, Errors(log))
    && emptyPasses == if log != [] && Empty(log[|log| - 1]) then 1 else 0
  }

  lemma PassLooping(log: seq<Pass>, before: Sweep, emptyPasses: int, p: Pass, sweep: Sweep)
    requires Looping(log, before, emptyPasses) && !sweep.complete
    requires Accounts(sweep, Errors(log) + ScanError(p.scan) + KillErrors(p.kills))
    ensures var now := if Empty(p) then emptyPasses + 1 else 0;
      && (now == 2 <==> EndsWithPair(log + [p])) && (now != 2 ==> Looping(log + [p], sweep, now))
    ensures Accounts(sweep, Errors(log + [p]))
  {
    hide Errors, ScanError, KillErrors, Accounts;
    ErrorsExtend(log, p);
  }

  /**
    The sweep, under a clock that every call may advance and the pause between passes advances by
    5 ms. It terminates; it reports `complete` exactly when its last two passes were consecutive
    complete empty scans, and otherwise ends only at the deadline; it signals only processes of the
    latest scan, each once, with tree equal to that scan plus the root; and it counts every failure,
    keeping the earliest. `log` is the record of the passes.
   */
  method KillDescendants(root: int, start: int, deadline: int, os: Environment)
    returns (sweep: Sweep, log: seq<Pass>)
    ensures sweep.complete <==> EndsWithPair(log)
    ensures !sweep.complete ==> NextStart(log, start, os) >= deadline
    ensures NoEarlierPair(log)
    ensures PassesOk(log, root, start, deadline, os)
    ensures Reckons(sweep, log)
  {
    sweep, log := Sweep(false, 0, None), [];
    var now := start;
    var emptyPasses := 0;
    assert Looping(log, sweep, emptyPasses);
    while now < deadline
      invariant Looping(log, sweep, emptyPasses) && Record(log, root, start, deadline, os)
      invariant now == NextStart(log, start, os)
      decreases deadline - now
    {
      assert Accounts(sweep, Errors(log)) && !sweep.complete && !EndsWithPair(log);
      hide Looping, Record, Errors, KillErrors, ScanError, PassOk, Accounts, EndsWithPair, PassesOk, NoEarlierPair,
           EndOf;
      ghost var before, passes := sweep, log;
      var p;
      sweep, now, p := ScanPass(root, |log|, sweep, now, deadline, os, Errors(log));
      PassLooping(passes, before, emptyPasses, p, sweep);
      RecordPass(passes, p, root, start, deadline, os);
      emptyPasses := if p.scan == Complete([]) then emptyPasses + 1 else 0;
      log := log + [p];
      if emptyPasses == 2 {
        RecordSays(log, root, start, deadline, os);
        sweep := sweep.(complete := true);
        CompleteAccounts(sweep.(complete := false), Errors(log));
        AccountsReckon(sweep, log);
        return;
      }
      now := now + PAUSE;
    }
    AccountsReckon(sweep, log);
  }

  lemma RecordSays(log: seq<Pass>, root: int, start: int, deadline: int, os: Environment)
    requires Record(log, root, start, deadline, os)
    ensures NoEarlierPair(log) && PassesOk(log, root, start, deadline, os)
  {}

  lemma CompleteAccounts(sweep: Sweep, errors: seq<Error>)
    requires Accounts(sweep, errors)
    ensures Accounts(sweep.(complete := true), errors)
  {}

  lemma NoKillErrors()
    ensures KillErrors([]) == []
  {}
}
