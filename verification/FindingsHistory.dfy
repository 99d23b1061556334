/** What the findings table means after any sequence of reconciled scans. */
module FindingsHistory {
  import opened Options
  import opened Filters
  import opened FindingsStore

  /** One reconciled scan. Scans that failed before reconciling leave only a gap in the ids. */
  datatype Run = Run(id: int, anomalies: seq<Finding>)

  /** `tables[i]` is the table before run `i`; the first is empty. */
  ghost predicate IsHistory(tables: seq<seq<Row>>, runs: seq<Run>) {
    && |tables| == |runs| + 1 && tables[0] == []
    && forall i :: 0 <= i < |runs| ==> Reconciled(tables[i], tables[i + 1], runs[i].id, runs[i].anomalies)
  }

  ghost predicate IncreasingIds(runs: seq<Run>) {
    forall i, j :: 0 <= i < j < |runs| ==> runs[i].id < runs[j].id
  }

  predicate Covers(r: Row, path: string, id: int) { r.path == path && r.first <= id <= r.last }

  ghost predicate RecordedIn(rows: seq<Row>, path: string, id: int) {
    exists k :: 0 <= k < |rows| && Covers(rows[k], path, id)
  }

  /** A path was anomalous in a run exactly when some row covers that run. */
  ghost predicate EncodesRuns(rows: seq<Row>, runs: seq<Run>, n: nat)
    requires n <= |runs|
  {
    forall i, p :: 0 <= i < n ==> (p in Paths(runs[i].anomalies) <==> RecordedIn(rows, p, runs[i].id))
  }

  ghost predicate WellOrdered(r: Row) { r.first <= r.last && (r.resolved.Some? ==> r.last < r.resolved.value) }

  /** A row's open end: an open row was last seen by the latest run, a resolved one by the run just before its end. */
  ghost predicate EndsRight(r: Row, runs: seq<Run>, n: nat)
    requires n <= |runs|
  {
    match r.resolved
    case None => n > 0 && r.last == runs[n - 1].id
    case Some(z) => exists i :: 0 <= i < n - 1 && runs[i].id == r.last && runs[i + 1].id == z
  }

  ghost predicate Encoded(rows: seq<Row>, runs: seq<Run>, n: nat)
    requires n <= |runs|
  {
    && EncodesRuns(rows, runs, n)
    && forall k :: 0 <= k < |rows| ==> WellOrdered(rows[k]) && EndsRight(rows[k], runs, n)
  }

  /** The rows a reconciliation leaves, seen from the rows it found. */
  lemma RowAfter(before: seq<Row>, after: seq<Row>, scan: int, fs: seq<Finding>, k: int)
    requires Reconciled(before, after, scan, fs) && 0 <= k < |after|
    ensures k < |before| ==> after[k] == Settled(before[k], scan, fs)
    ensures k >= |before| ==>
      && after[k].first == after[k].last == scan && Open(after[k])
      && after[k].path in Paths(fs) && after[k].path !in OpenPaths(before)
  {
    if k >= |before| {
      var added := Select(fs, OpenPaths(before), false);
      SelectPaths(fs, OpenPaths(before), false);
      assert after[k] == after[|before|..][k - |before|] == NewRow(added[k - |before|], scan);
      assert added[k - |before|].path in Paths(added);
    }
  }

  /** A path seen by the scan has an open row afterwards that covers it. */
  lemma SeenIsRecorded(before: seq<Row>, after: seq<Row>, scan: int, fs: seq<Finding>, p: string)
    requires Reconciled(before, after, scan, fs) && p in Paths(fs)
    requires forall k :: 0 <= k < |before| ==> before[k].first <= scan
    ensures exists k :: 0 <= k < |after| && Covers(after[k], p, scan) && Open(after[k])
  {
    if p in OpenPaths(before) {
      var k :| 0 <= k < |before| && Open(before[k]) && before[k].path == p;
      assert Covers(after[k], p, scan) && Open(after[k]);
    } else {
      var added := Select(fs, OpenPaths(before), false);
      SelectPaths(fs, OpenPaths(before), false);
      assert p in Paths(added);
      var j :| 0 <= j < |added| && added[j].path == p;
      assert after[|before| + j] == after[|before|..][j] == NewRow(added[j], scan);
    }
  }

  /** The open paths after a reconciliation are exactly the scan's anomalous paths. */
  lemma OpenAfterIsCurrent(before: seq<Row>, after: seq<Row>, scan: int, fs: seq<Finding>)
    requires Reconciled(before, after, scan, fs)
    ensures OpenPaths(after) == Paths(fs)
  {
    forall p | p in OpenPaths(after) ensures p in Paths(fs) {
      var k :| 0 <= k < |after| && Open(after[k]) && after[k].path == p;
      RowAfter(before, after, scan, fs, k);
    }
    forall p | p in Paths(fs) ensures p in OpenPaths(after) {
      if p in OpenPaths(before) {
        var k :| 0 <= k < |before| && Open(before[k]) && before[k].path == p;
        assert Open(after[k]) && after[k].path == p;
      } else {
        var added := Select(fs, OpenPaths(before), false);
        SelectPaths(fs, OpenPaths(before), false);
        assert p in Paths(added);
        var j :| 0 <= j < |added| && added[j].path == p;
        assert after[|before| + j] == after[|before|..][j] == NewRow(added[j], scan);
      }
    }
  }

  /**
    The rows a reconciliation inserts, one for every finding of a path without an open row, repeats
    included and in order: each with the path, the check and the detail of its own finding.
   */
  lemma InsertedRowsAreFindings(before: seq<Row>, after: seq<Row>, scan: int, fs: seq<Finding>)
    requires Reconciled(before, after, scan, fs)
    ensures exists added: seq<Finding> ::
      IsFilter(fs, (f: Finding) => f.path !in OpenPaths(before), added) && RowsOf(before, after, scan, added)
  {
    var added := Select(fs, OpenPaths(before), false);
    SelectIs(fs, OpenPaths(before), false);
    SameFilter(fs, (f: Finding) => (f.path in OpenPaths(before)) == false,
      (f: Finding) => f.path !in OpenPaths(before), added);
    forall k | 0 <= k < |added|
      ensures after[|before| + k] == Row(added[k].path, added[k].check, added[k].detail, scan, scan, None)
    {
      assert after[|before| + k] == after[|before|..][k];
    }
    assert RowsOf(before, after, scan, added);
  }

  /** The rows past the old ones are those of the added findings, first and last seen by this scan. */
  ghost predicate RowsOf(before: seq<Row>, after: seq<Row>, scan: int, added: seq<Finding>) {
    && |after| == |before| + |added|
    && forall k :: 0 <= k < |added| ==>
         after[|before| + k] == Row(added[k].path, added[k].check, added[k].detail, scan, scan, None)
  }

  lemma SameFilter(fs: seq<Finding>, keep: Finding -> bool, same: Finding -> bool, ys: seq<Finding>)
    requires IsFilter(fs, keep, ys) && forall f :: keep(f) == same(f)
    ensures IsFilter(fs, same, ys)
  {
    var at :| Picks(fs, keep, ys, at);
    assert Picks(fs, same, ys, at);
  }

  /** The lines are the findings' own paths and details. */
  ghost predicate LinesOf(lines: seq<Line>, fs: seq<Finding>) {
    |lines| == |fs| && forall k :: 0 <= k < |fs| ==> lines[k].path == fs[k].path && lines[k].detail == fs[k].detail
  }

  /** The report lists every finding once per occurrence, in order, as new or as outstanding. */
  lemma ReportListsFindings(report: Report, before: seq<Row>, fs: seq<Finding>)
    requires Reports(report, before, fs)
    ensures exists added: seq<Finding> ::
      IsFilter(fs, (f: Finding) => f.path !in OpenPaths(before), added) && LinesOf(report.added, added)
    ensures exists seen: seq<Finding> ::
      IsFilter(fs, (f: Finding) => f.path in OpenPaths(before), seen) && LinesOf(report.outstanding, seen)
  {
    var paths := OpenPaths(before);
    SelectIs(fs, paths, false);
    SelectIs(fs, paths, true);
    var added, seen := Select(fs, paths, false), Select(fs, paths, true);
    SameFilter(fs, (f: Finding) => (f.path in paths) == false, (f: Finding) => f.path !in paths, added);
    SameFilter(fs, (f: Finding) => (f.path in paths) == true, (f: Finding) => f.path in paths, seen);
    assert LinesOf(report.added, added) && LinesOf(report.outstanding, seen);
  }

  ghost predicate LastFor(fs: seq<Finding>, path: string, i: int) {
    0 <= i < |fs| && fs[i].path == path && forall j :: i < j < |fs| ==> fs[j].path != path
  }

  /** A bumped row takes the scan and the last detail, and keeps the rest. */
  lemma BumpedRow(before: seq<Row>, after: seq<Row>, scan: int, fs: seq<Finding>, k: nat)
    requires Reconciled(before, after, scan, fs) && k < |before| && Open(before[k]) && before[k].path in Paths(fs)
    ensures exists i :: LastFor(fs, before[k].path, i) && after[k] == before[k].(last := scan, detail := fs[i].detail)
  {
    LastDetailIs(fs, before[k].path);
    var i :| 0 <= i < |fs| && fs[i].path == before[k].path && fs[i].detail == LastDetail(fs, before[k].path)
             && forall j :: i < j < |fs| ==> fs[j].path != before[k].path;
    assert LastFor(fs, before[k].path, i);
  }

  // ---------------------------------------------------------------- one more run

  lemma StepKeepsRows(before: seq<Row>, after: seq<Row>, runs: seq<Run>, n: nat, k: int)
    requires n < |runs| && IncreasingIds(runs) && Encoded(before, runs, n)
    requires Reconciled(before, after, runs[n].id, runs[n].anomalies) && 0 <= k < |after|
    ensures WellOrdered(after[k]) && EndsRight(after[k], runs, n + 1)
  {}

  /** Rows end no later than the latest run. */
  lemma RowsEndBefore(rows: seq<Row>, runs: seq<Run>, n: nat, k: int)
    requires n <= |runs| && IncreasingIds(runs) && Encoded(rows, runs, n) && 0 <= k < |rows|
    ensures n > 0 && rows[k].first <= rows[k].last <= runs[n - 1].id
  {}

  /** Rows cover the earlier runs exactly as before: only the span after the previous run grows. */
  lemma StepKeepsOldRuns(before: seq<Row>, after: seq<Row>, runs: seq<Run>, n: nat, i: nat, p: string)
    requires n < |runs| && IncreasingIds(runs) && Encoded(before, runs, n) && i < n
    requires Reconciled(before, after, runs[n].id, runs[n].anomalies)
    ensures RecordedIn(before, p, runs[i].id) <==> RecordedIn(after, p, runs[i].id)
  {}

  lemma StepRecordsThisRun(before: seq<Row>, after: seq<Row>, runs: seq<Run>, n: nat, p: string)
    requires n < |runs| && IncreasingIds(runs) && Encoded(before, runs, n)
    requires Reconciled(before, after, runs[n].id, runs[n].anomalies)
    ensures p in Paths(runs[n].anomalies) <==> RecordedIn(after, p, runs[n].id)
  {
    forall k | 0 <= k < |before| ensures before[k].first <= before[k].last < runs[n].id {
      RowsEndBefore(before, runs, n, k);
    }
    if p in Paths(runs[n].anomalies) {
      SeenIsRecorded(before, after, runs[n].id, runs[n].anomalies, p);
    }
    if RecordedIn(after, p, runs[n].id) {
      var k :| 0 <= k < |after| && Covers(after[k], p, runs[n].id);
      RowAfter(before, after, runs[n].id, runs[n].anomalies, k);
    }
  }

  lemma StepEncodes(before: seq<Row>, after: seq<Row>, runs: seq<Run>, n: nat)
    requires n < |runs| && IncreasingIds(runs) && Encoded(before, runs, n)
    requires Reconciled(before, after, runs[n].id, runs[n].anomalies)
    ensures Encoded(after, runs, n + 1)
  {
    forall i, p | 0 <= i < n + 1
      ensures p in Paths(runs[i].anomalies) <==> RecordedIn(after, p, runs[i].id)
    {
      if i < n {
        StepKeepsOldRuns(before, after, runs, n, i, p);
      } else {
        StepRecordsThisRun(before, after, runs, n, p);
      }
    }
    forall k | 0 <= k < |after| ensures WellOrdered(after[k]) && EndsRight(after[k], runs, n + 1) {
      StepKeepsRows(before, after, runs, n, k);
    }
  }

  // ---------------------------------------------------------------- whole histories

  /**
    The table encodes the whole history: a path was anomalous in a reconciled run exactly when
    some row spans that run; every row has first <= last < resolved, an open row was last seen by
    the latest run, and a resolved row ends at the first reconciled run that no longer saw it.
   */
  lemma {:induction false} TableEncodesHistory(tables: seq<seq<Row>>, runs: seq<Run>, n: nat)
    requires IsHistory(tables, runs) && IncreasingIds(runs) && n <= |runs|
    ensures Encoded(tables[n], runs, n)
  {
    if n > 0 {
      hide Encoded, Reconciled;
      TableEncodesHistory(tables, runs, n - 1);
      StepEncodes(tables[n - 1], tables[n], runs, n - 1);
    }
  }

  /** Rows are never deleted or reordered, and a resolved row never changes again. */
  lemma {:induction false} ResolvedRowsNeverChange(tables: seq<seq<Row>>, runs: seq<Run>, i: nat, j: nat, k: nat)
    requires IsHistory(tables, runs) && i <= j <= |runs| && k < |tables[i]|
    ensures k < |tables[j]| && tables[j][k].path == tables[i][k].path && tables[j][k].first == tables[i][k].first
    ensures tables[i][k].resolved.Some? ==> tables[j][k] == tables[i][k]
  {
    if i < j {
      ResolvedRowsNeverChange(tables, runs, i, j - 1, k);
      RowAfter(tables[j - 1], tables[j], runs[j - 1].id, runs[j - 1].anomalies, k);
    }
  }

  /** Run `i` saw the row first, with its check. */
  ghost predicate FirstSeenIn(r: Row, runs: seq<Run>, i: int) {
    && 0 <= i < |runs| && runs[i].id == r.first
    && exists j :: 0 <= j < |runs[i].anomalies|
                   && runs[i].anomalies[j].path == r.path && runs[i].anomalies[j].check == r.check
  }

  /** Run `i` saw the row last, with its detail: of several findings of a known path, the last one's. */
  ghost predicate LastSeenIn(r: Row, runs: seq<Run>, i: int) {
    && 0 <= i < |runs| && runs[i].id == r.last
    && exists j :: 0 <= j < |runs[i].anomalies|
                   && runs[i].anomalies[j].path == r.path && runs[i].anomalies[j].detail == r.detail
                   && (r.first < r.last ==> LastFor(runs[i].anomalies, r.path, j))
  }

  ghost predicate Tells(r: Row, runs: seq<Run>, n: int) {
    (exists i :: 0 <= i < n && FirstSeenIn(r, runs, i)) && exists i :: 0 <= i < n && LastSeenIn(r, runs, i)
  }

  lemma RowTells(before: seq<Row>, after: seq<Row>, runs: seq<Run>, n: nat, k: nat)
    requires n < |runs| && Reconciled(before, after, runs[n].id, runs[n].anomalies) && k < |after|
    requires k < |before| ==> Tells(before[k], runs, n) && before[k].first < runs[n].id
    ensures Tells(after[k], runs, n + 1)
  {
    var scan, fs := runs[n].id, runs[n].anomalies;
    RowAfter(before, after, scan, fs, k);
    if k >= |before| {
      InsertedRowsAreFindings(before, after, scan, fs);
      var added: seq<Finding> :|
        IsFilter(fs, (f: Finding) => f.path !in OpenPaths(before), added) && RowsOf(before, after, scan, added);
      var f := added[k - |before|];
      assert after[|before| + (k - |before|)].path == f.path;
      FilterMembers(fs, (f: Finding) => f.path !in OpenPaths(before), added, f);
      var j :| 0 <= j < |fs| && fs[j] == f;
      assert FirstSeenIn(after[k], runs, n) && LastSeenIn(after[k], runs, n);
    } else {
      var i :| 0 <= i < n && FirstSeenIn(before[k], runs, i);
      assert FirstSeenIn(after[k], runs, i);
      if Open(before[k]) && before[k].path in Paths(fs) {
        BumpedRow(before, after, scan, fs, k);
        var j :| LastFor(fs, before[k].path, j) && after[k] == before[k].(last := scan, detail := fs[j].detail);
        assert LastSeenIn(after[k], runs, n);
      } else {
        var i :| 0 <= i < n && LastSeenIn(before[k], runs, i);
        assert LastSeenIn(after[k], runs, i);
      }
    }
  }

  /** Every row keeps the check of its first sighting and carries the detail of its latest. */
  lemma {:induction false} RowsTellTheirSightings(tables: seq<seq<Row>>, runs: seq<Run>, n: nat, k: nat)
    requires IsHistory(tables, runs) && IncreasingIds(runs) && n <= |runs| && k < |tables[n]|
    ensures Tells(tables[n][k], runs, n)
  {
    hide Reconciled, Tells, Encoded;
    var m := n - 1;
    if k < |tables[m]| {
      RowsTellTheirSightings(tables, runs, m, k);
      TableEncodesHistory(tables, runs, m);
      RowsEndBefore(tables[m], runs, m, k);
    }
    RowTells(tables[m], tables[n], runs, m, k);
  }

  /**
    Every report is the plain set difference against the previous reconciled run, whatever failed
    in between and however often a path repeats, and the open paths are the current ones.
   */
  lemma ReportIsSetDifference(tables: seq<seq<Row>>, runs: seq<Run>, n: nat, report: Report)
    requires IsHistory(tables, runs) && n < |runs| && Reports(report, tables[n], runs[n].anomalies)
    ensures var previous := if n == 0 then {} else Paths(runs[n - 1].anomalies);
      var current := Paths(runs[n].anomalies);
      && LinePaths(report.added) == current - previous
      && LinePaths(report.outstanding) == current * previous
      && LinePaths(report.resolved) == previous - current
      && OpenPaths(tables[n + 1]) == current
  {
    var previous := if n == 0 then {} else Paths(runs[n - 1].anomalies);
    if n > 0 { OpenAfterIsCurrent(tables[n - 1], tables[n], runs[n - 1].id, runs[n - 1].anomalies); }
    assert OpenPaths(tables[n]) == previous;
    OpenAfterIsCurrent(tables[n], tables[n + 1], runs[n].id, runs[n].anomalies);
    SelectPaths(runs[n].anomalies, previous, false);
    SelectPaths(runs[n].anomalies, previous, true);
    LinesKeepPaths(Select(runs[n].anomalies, previous, false));
    LinesKeepPaths(Select(runs[n].anomalies, previous, true));
  }

  lemma LinesKeepPaths(fs: seq<Finding>)
    ensures LinePaths(Lines(fs)) == Paths(fs)
  {
    forall p | p in Paths(fs) ensures p in LinePaths(Lines(fs)) {
      var i :| 0 <= i < |fs| && fs[i].path == p;
      assert Lines(fs)[i].path == p;
    }
  }

  // ---------------------------------------------------------------- the store, driven scan by scan

  /** One call of `run_privileged_scan`: `None` when a check failed before the reconciliation. */
  datatype Attempt = Attempt(findings: Option<seq<Finding>>, commits: bool)

  predicate Reconciles(a: Attempt) { a.findings.Some? && a.commits }

  /** What the attempts that reconciled found, in order. */
  function Found(attempts: seq<Attempt>): seq<seq<Finding>> {
    if attempts == [] then []
    else
      var rest, last := Found(attempts[..|attempts| - 1]), attempts[|attempts| - 1];
      if Reconciles(last) then rest + [Anomalies(last.findings.value)] else rest
  }

  function AnomaliesOf(runs: seq<Run>): seq<seq<Finding>> {
    seq(|runs|, i requires 0 <= i < |runs| => runs[i].anomalies)
  }

  /** The table and the last id given out are those of a store that has lived through the history. */
  ghost predicate Lived(rows: seq<Row>, lastScan: int, tables: seq<seq<Row>>, runs: seq<Run>, reports: seq<Report>) {
    && IsHistory(tables, runs) && IncreasingIds(runs) && tables[|runs|] == rows
    && (forall i :: 0 <= i < |runs| ==> runs[i].id <= lastScan)
    && |reports| == |runs| && forall i :: 0 <= i < |runs| ==> Reports(reports[i], tables[i], runs[i].anomalies)
  }

  lemma LivedExtends(rows: seq<Row>, last: int, tables: seq<seq<Row>>, runs: seq<Run>, reports: seq<Report>,
                     after: seq<Row>, scan: int, fs: seq<Finding>, report: Report)
    requires Lived(rows, last, tables, runs, reports) && last < scan
    requires Reconciled(rows, after, scan, fs) && Reports(report, rows, fs)
    ensures Lived(after, scan, tables + [after], runs + [Run(scan, fs)], reports + [report])
    ensures AnomaliesOf(runs + [Run(scan, fs)]) == AnomaliesOf(runs) + [fs]
  {
    hide Reconciled, Reports;
  }

  lemma LivedLonger(rows: seq<Row>, last: int, tables: seq<seq<Row>>, runs: seq<Run>, reports: seq<Report>)
    requires Lived(rows, last, tables, runs, reports)
    ensures Lived(rows, last + 1, tables, runs, reports)
  {
    hide IsHistory, Reports;
  }

  /**
    Scan after scan on a new store, some failing before or while they reconcile: the table is the one
    of a history with increasing ids whose runs are exactly the scans that reconciled, it encodes that
    history, and every report is the one of its run.
   */
  method RunScans(store: ScanStore, attempts: seq<Attempt>)
    returns (reports: seq<Report>, ghost tables: seq<seq<Row>>, ghost runs: seq<Run>)
    requires store.rows == []
    modifies store
    ensures Lived(store.rows, store.lastScan, tables, runs, reports) && AnomaliesOf(runs) == Found(attempts)
    ensures Encoded(store.rows, runs, |runs|)
  {
    reports, tables, runs := [], [[]], [];
    for n := 0 to |attempts|
      invariant Lived(store.rows, store.lastScan, tables, runs, reports) && AnomaliesOf(runs) == Found(attempts[..n])
    {
      hide Reconciled, Reports, Lived, AnomaliesOf;
      assert attempts[..n + 1][..n] == attempts[..n];
      LivedLonger(store.rows, store.lastScan, tables, runs, reports);
      ghost var rows, last := store.rows, store.lastScan;
      var scan := store.StartScan();
      if attempts[n].findings.Some? {
        var report := store.Reconcile(scan, attempts[n].findings.value, attempts[n].commits);
        if report.Some? {
          ghost var fs := Anomalies(attempts[n].findings.value);
          LivedExtends(rows, last, tables, runs, reports, store.rows, scan, fs, report.value);
          reports, tables, runs := reports + [report.value], tables + [store.rows], runs + [Run(scan, fs)];
        }
      }
    }
    assert attempts[..|attempts|] == attempts;
    TableEncodesHistory(tables, runs, |runs|);
  }

  // ---------------------------------------------------------------- out-of-order scans

  ghost predicate AllWellOrdered(rows: seq<Row>) {
    forall k :: 0 <= k < |rows| ==> WellOrdered(rows[k])
  }

  /** Whatever this scan finds, the rows it leaves are well ordered. */
  ghost predicate SafeScan(rows: seq<Row>, scan: int) {
    forall fs: seq<Finding>, after: seq<Row> :: Reconciled(rows, after, scan, fs) ==> AllWellOrdered(after)
  }

  /**
    The store accepts any scan id. Well-ordered rows stay so for every outcome of a scan exactly
    when the scan is later than every open row's last sighting.
   */
  lemma OrderNeedsLaterScan(rows: seq<Row>, scan: int)
    requires AllWellOrdered(rows)
    ensures SafeScan(rows, scan) <==> forall k :: 0 <= k < |rows| && Open(rows[k]) ==> rows[k].last < scan
  {
    if forall k :: 0 <= k < |rows| && Open(rows[k]) ==> rows[k].last < scan {
      forall fs: seq<Finding>, after: seq<Row>, k | Reconciled(rows, after, scan, fs) && 0 <= k < |after|
        ensures WellOrdered(after[k])
      {
        RowAfter(rows, after, scan, fs, k);
      }
    }
    if SafeScan(rows, scan) {
      var after := seq(|rows|, i requires 0 <= i < |rows| => Settled(rows[i], scan, []));
      assert Reconciled(rows, after, scan, []);
      forall k | 0 <= k < |rows| && Open(rows[k]) ensures rows[k].last < scan {
        assert WellOrdered(after[k]);
      }
    }
  }

  lemma SelectOne(f: Finding, paths: set<string>)
    ensures Select([f], paths, false) == if f.path in paths then [] else [f]
  {}

  lemma FirstSighting(f: Finding, scan: int)
    ensures Reconciled([], [NewRow(f, scan)], scan, [f])
  {}

  lemma SightedAgain(f: Finding, row: Row, scan: int)
    requires Open(row) && row.path == f.path && row.detail == f.detail
    ensures Reconciled([row], [row.(last := scan)], scan, [f])
  {
    assert [row][0].path in OpenPaths([row]) && [f][0].path in Paths([f]);
    SelectOne(f, OpenPaths([row]));
  }

  /** Two overlapping scans that reconcile in the opposite order of their ids leave a row that ends before it begins. */
  lemma OutOfOrderScansBreakRows(f: Finding)
    ensures exists tables: seq<seq<Row>>, runs: seq<Run> ::
      IsHistory(tables, runs) && |runs| == 2 && runs[0].id == 2 && runs[1].id == 1
      && |tables[2]| == 1 && tables[2][0].last < tables[2][0].first
  {
    hide Reconciled;
    var row := NewRow(f, 2);
    var runs := [Run(2, [f]), Run(1, [f])];
    var tables := [[], [row], [row.(last := 1)]];
    FirstSighting(f, 2);
    SightedAgain(f, row, 1);
    assert IsHistory(tables, runs);
  }
}
