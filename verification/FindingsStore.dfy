/** The `findings` table of `scans.db` and the reconciliation of one scan against it. */
module FindingsStore {
  import opened Options
  import opened Filters

  datatype Check = FileDrift | KargsDrift | ModuleAnomaly | LockdownState | RootkitSignature

  datatype Finding = Finding(check: Check, anomalous: bool, path: string, detail: string)

  /** One row: the scans that saw it first and last, and the scan that found it gone. */
  datatype Row = Row(path: string, check: Check, detail: string, first: int, last: int, resolved: Option<int>)

  datatype Line = Line(path: string, detail: string)

  /** The three buckets of the user-facing report. */
  datatype Report = Report(added: seq<Line>, outstanding: seq<Line>, resolved: seq<Line>)

  predicate Open(r: Row) { r.resolved.None? }

  function OpenPaths(rows: seq<Row>): set<string> {
    set i | 0 <= i < |rows| && Open(rows[i]) :: rows[i].path
  }

  function Paths(fs: seq<Finding>): set<string> { set i | 0 <= i < |fs| :: fs[i].path }

  function LinePaths(ls: seq<Line>): set<string> { set i | 0 <= i < |ls| :: ls[i].path }

  function Anomalies(fs: seq<Finding>): seq<Finding> {
    if fs == [] then []
    else if fs[|fs| - 1].anomalous then Anomalies(fs[..|fs| - 1]) + [fs[|fs| - 1]]
    else Anomalies(fs[..|fs| - 1])
  }

  /** The findings whose path is (or is not) among `paths`, in order and with repeats. */
  function Select(fs: seq<Finding>, paths: set<string>, member: bool): seq<Finding> {
    if fs == [] then []
    else
      var rest := Select(fs[..|fs| - 1], paths, member);
      var f := fs[|fs| - 1];
      if (f.path in paths) == member then rest + [f] else rest
  }

  function Lines(fs: seq<Finding>): seq<Line> { seq(|fs|, i requires 0 <= i < |fs| => Line(fs[i].path, fs[i].detail)) }

  /** The detail the last finding for `path` carries. */
  function LastDetail(fs: seq<Finding>, path: string): string
    requires path in Paths(fs)
  {
    if fs[|fs| - 1].path == path then fs[|fs| - 1].detail
    else LastDetail(fs[..|fs| - 1], path)
  }

  function NewRow(f: Finding, scan: int): Row { Row(f.path, f.check, f.detail, scan, scan, None) }

  function NewRows(fs: seq<Finding>, scan: int): seq<Row> {
    seq(|fs|, i requires 0 <= i < |fs| => NewRow(fs[i], scan))
  }

  // ---------------------------------------------------------------- the SQL statements

  function Bump(rows: seq<Row>, scan: int, f: Finding): seq<Row> {
    seq(|rows|, i requires 0 <= i < |rows| =>
      if rows[i].path == f.path && Open(rows[i]) then rows[i].(last := scan, detail := f.detail) else rows[i])
  }

  function Close(rows: seq<Row>, scan: int, path: string): seq<Row> {
    seq(|rows|, i requires 0 <= i < |rows| =>
      if rows[i].path == path && Open(rows[i]) then rows[i].(resolved := Some(scan)) else rows[i])
  }

  // ---------------------------------------------------------------- what one reconciliation does

  /** A row after the anomalies `fs` were seen: bumped if open and seen again. */
  function Seen(r: Row, scan: int, fs: seq<Finding>): Row {
    if Open(r) && r.path in Paths(fs) then r.(last := scan, detail := LastDetail(fs, r.path)) else r
  }

  /** A row after the whole reconciliation: an open row not seen is resolved by this scan. */
  function Settled(r: Row, scan: int, fs: seq<Finding>): Row {
    if Open(r) && r.path !in Paths(fs) then r.(resolved := Some(scan)) else Seen(r, scan, fs)
  }

  /** `after` is `before` reconciled with the anomalies `fs` of `scan`. */
  ghost predicate Reconciled(before: seq<Row>, after: seq<Row>, scan: int, fs: seq<Finding>) {
    && |after| == |before| + |Select(fs, OpenPaths(before), false)|
    && (forall i :: 0 <= i < |before| ==> after[i] == Settled(before[i], scan, fs))
    && after[|before|..] == NewRows(Select(fs, OpenPaths(before), false), scan)
  }

  /**
    The report is the set difference against the open rows, with every finding of this scan listed
    once per occurrence.
   */
  ghost predicate Reports(report: Report, before: seq<Row>, fs: seq<Finding>) {
    && report.added == Lines(Select(fs, OpenPaths(before), false))
    && report.outstanding == Lines(Select(fs, OpenPaths(before), true))
    && LinePaths(report.resolved) == OpenPaths(before) - Paths(fs)
    && (forall i :: 0 <= i < |report.resolved| ==> report.resolved[i].detail == "")
    && (forall i, j :: 0 <= i < j < |report.resolved| ==> report.resolved[i].path != report.resolved[j].path)
  }

  /** The table halfway: the anomalies are in, the rows of `closed` are resolved. */
  ghost predicate Midway(before: seq<Row>, now: seq<Row>, scan: int, fs: seq<Finding>, closed: set<string>) {
    && |now| == |before| + |Select(fs, OpenPaths(before), false)|
    && (forall i :: 0 <= i < |before| ==>
          now[i] == if Open(before[i]) && before[i].path in closed && before[i].path !in Paths(fs)
                    then before[i].(resolved := Some(scan)) else Seen(before[i], scan, fs))
    && now[|before|..] == NewRows(Select(fs, OpenPaths(before), false), scan)
  }

  lemma SelectPaths(fs: seq<Finding>, paths: set<string>, member: bool)
    ensures Paths(Select(fs, paths, member)) == if member then Paths(fs) * paths else Paths(fs) - paths
  {
    if fs != [] {
      var n := |fs| - 1;
      SelectPaths(fs[..n], paths, member);
      PathsExtend(fs[..n], fs[n]);
      assert fs[..n] + [fs[n]] == fs;
      PathsExtend(Select(fs[..n], paths, member), fs[n]);
    }
  }

  lemma PathsExtend(fs: seq<Finding>, f: Finding)
    ensures Paths(fs + [f]) == Paths(fs) + {f.path}
  {
    var all := fs + [f];
    forall p | p in Paths(fs) + {f.path} ensures p in Paths(all) {
      if p in Paths(fs) {
        var i :| 0 <= i < |fs| && fs[i].path == p;
        assert all[i].path == p;
      } else {
        assert all[|fs|].path == p;
      }
    }
  }

  /** Anomalies are the anomalous findings, each occurrence in order. */
  lemma {:induction false} AnomaliesAre(fs: seq<Finding>)
    ensures IsFilter(fs, (f: Finding) => f.anomalous, Anomalies(fs))
  {
    hide IsFilter;
    var keep := (f: Finding) => f.anomalous;
    if fs == [] {
      FilterNone(keep);
    } else {
      var n := |fs| - 1;
      AnomaliesAre(fs[..n]);
      assert fs == fs[..n] + [fs[n]];
      if keep(fs[n]) {
        FilterKeeps(fs[..n], keep, Anomalies(fs[..n]), fs[n]);
      } else {
        FilterSkips(fs[..n], keep, Anomalies(fs[..n]), fs[n]);
      }
    }
  }

  /** What is selected: the findings whose path is (or is not) among the paths, each occurrence in order. */
  lemma {:induction false} SelectIs(fs: seq<Finding>, paths: set<string>, member: bool)
    ensures IsFilter(fs, (f: Finding) => (f.path in paths) == member, Select(fs, paths, member))
  {
    hide IsFilter;
    var keep := (f: Finding) => (f.path in paths) == member;
    if fs == [] {
      FilterNone(keep);
    } else {
      var n := |fs| - 1;
      SelectIs(fs[..n], paths, member);
      assert fs == fs[..n] + [fs[n]];
      if keep(fs[n]) {
        FilterKeeps(fs[..n], keep, Select(fs[..n], paths, member), fs[n]);
      } else {
        FilterSkips(fs[..n], keep, Select(fs[..n], paths, member), fs[n]);
      }
    }
  }

  /** The detail that stays is that of the last finding for the path. */
  lemma {:induction false} LastDetailIs(fs: seq<Finding>, path: string)
    requires path in Paths(fs)
    ensures exists i :: 0 <= i < |fs| && fs[i].path == path && fs[i].detail == LastDetail(fs, path)
                        && forall j :: i < j < |fs| ==> fs[j].path != path
  {
    var n := |fs| - 1;
    if fs[n].path != path {
      LastDetailIs(fs[..n], path);
      var i :| 0 <= i < n && fs[..n][i].path == path && fs[..n][i].detail == LastDetail(fs[..n], path)
               && forall j :: i < j < n ==> fs[..n][j].path != path;
      forall j | i < j < |fs| ensures fs[j].path != path { if j < n { assert fs[j] == fs[..n][j]; } }
      assert fs[i] == fs[..n][i];
    }
  }

  /** The paths a scan reconciles are exactly those of its anomalous findings. */
  lemma {:induction false} AnomalousPaths(fs: seq<Finding>)
    ensures Paths(Anomalies(fs)) == set i | 0 <= i < |fs| && fs[i].anomalous :: fs[i].path
    ensures forall f :: f in Anomalies(fs) <==> f in fs && f.anomalous
  {
    if fs != [] {
      var n := |fs| - 1;
      AnomalousPaths(fs[..n]);
      assert fs == fs[..n] + [fs[n]];
    }
    forall p | p in Paths(Anomalies(fs)) ensures exists i :: 0 <= i < |fs| && fs[i].anomalous && fs[i].path == p {
      var k :| 0 <= k < |Anomalies(fs)| && Anomalies(fs)[k].path == p;
      assert Anomalies(fs)[k] in Anomalies(fs);
    }
    forall i | 0 <= i < |fs| && fs[i].anomalous ensures fs[i].path in Paths(Anomalies(fs)) {
      assert fs[i] in Anomalies(fs);
      var k :| 0 <= k < |Anomalies(fs)| && Anomalies(fs)[k] == fs[i];
    }
  }

  lemma LinePathsExtend(ls: seq<Line>, l: Line)
    ensures LinePaths(ls + [l]) == LinePaths(ls) + {l.path}
    ensures l.path !in LinePaths(ls) ==> forall i :: 0 <= i < |ls| ==> ls[i].path != l.path
  {
    var all := ls + [l];
    forall p | p in LinePaths(ls) + {l.path} ensures p in LinePaths(all) {
      if p in LinePaths(ls) {
        var i :| 0 <= i < |ls| && ls[i].path == p;
        assert all[i].path == p;
      } else {
        assert all[|ls|].path == p;
      }
    }
  }

  /** One more finding changes the last detail of its own path only. */
  lemma DetailExtend(fs: seq<Finding>, f: Finding, path: string)
    requires path in Paths(fs + [f])
    ensures path != f.path ==> path in Paths(fs)
    ensures LastDetail(fs + [f], path) == if path == f.path then f.detail else LastDetail(fs, path)
  {}

  lemma SelectExtend(fs: seq<Finding>, f: Finding, paths: set<string>, member: bool)
    ensures Select(fs + [f], paths, member) ==
      Select(fs, paths, member) + if (f.path in paths) == member then [f] else []
  {}

  lemma MidwayBump(before: seq<Row>, now: seq<Row>, scan: int, fs: seq<Finding>, f: Finding)
    requires Midway(before, now, scan, fs, {}) && f.path in OpenPaths(before)
    ensures Midway(before, Bump(now, scan, f), scan, fs + [f], {})
  {
    hide Select, Paths, LastDetail, OpenPaths;
    var paths := OpenPaths(before);
    var added := Select(fs, paths, false);
    PathsExtend(fs, f);
    SelectExtend(fs, f, paths, false);
    forall i | 0 <= i < |before| ensures Bump(now, scan, f)[i] == Seen(before[i], scan, fs + [f]) {
      if before[i].path in Paths(fs + [f]) { DetailExtend(fs, f, before[i].path); }
    }
    forall i | 0 <= i < |added| ensures Bump(now, scan, f)[|before| + i] == NewRow(added[i], scan) {
      SelectedIsNew(fs, paths, i);
      assert now[|before|..][i] == NewRow(added[i], scan);
    }
  }

  lemma SelectedIsNew(fs: seq<Finding>, paths: set<string>, i: nat)
    requires i < |Select(fs, paths, false)|
    ensures Select(fs, paths, false)[i].path !in paths
  {}

  lemma MidwayAdd(before: seq<Row>, now: seq<Row>, scan: int, fs: seq<Finding>, f: Finding)
    requires Midway(before, now, scan, fs, {}) && f.path !in OpenPaths(before)
    ensures Midway(before, now + [NewRow(f, scan)], scan, fs + [f], {})
  {}

  lemma LinesExtend(fs: seq<Finding>, f: Finding)
    ensures Lines(fs + [f]) == Lines(fs) + [Line(f.path, f.detail)]
  {}

  /** Once every open path has been looked at, the table is the reconciled one. */
  lemma MidwayIsDone(before: seq<Row>, now: seq<Row>, scan: int, fs: seq<Finding>)
    requires Midway(before, now, scan, fs, OpenPaths(before))
    ensures Reconciled(before, now, scan, fs)
  {}

  lemma MidwayClose(before: seq<Row>, now: seq<Row>, scan: int, fs: seq<Finding>, closed: set<string>, path: string)
    requires Midway(before, now, scan, fs, closed) && path in OpenPaths(before) && path !in closed
    ensures path in Paths(fs) ==> Midway(before, now, scan, fs, closed + {path})
    ensures path !in Paths(fs) ==> Midway(before, Close(now, scan, path), scan, fs, closed + {path})
  {
    var added := Select(fs, OpenPaths(before), false);
    if path !in Paths(fs) {
      SelectPaths(fs, OpenPaths(before), false);
      forall i | 0 <= i < |added| ensures Close(now, scan, path)[|before| + i] == NewRow(added[i], scan) {
        assert added[i].path in Paths(added);
        assert now[|before|..][i] == NewRow(added[i], scan);
      }
    }
  }

  class ScanStore {
    var rows: seq<Row>
    var lastScan: int

    constructor ()
      ensures rows == [] && lastScan == 0
    {
      rows, lastScan := [], 0;
    }

    /** Row ids are handed out in increasing order and scan runs are never deleted. */
    method StartScan() returns (scan: int)
      modifies this
      ensures scan == lastScan == old(lastScan) + 1 && rows == old(rows)
    {
      lastScan := lastScan + 1;
      scan := lastScan;
    }

    /** The anomalous findings, in order. */
    static method FilterAnomalies(findings: seq<Finding>) returns (anomalies: seq<Finding>)
      ensures anomalies == Anomalies(findings)
    {
      anomalies := [];
      for i := 0 to |findings|
        invariant anomalies == Anomalies(findings[..i])
      {
        assert findings[..i + 1][..i] == findings[..i];
        if findings[i].anomalous { anomalies := anomalies + [findings[i]]; }
      }
      assert findings[..|findings|] == findings;
    }

    /** The open rows keyed by path; of several rows for one path the last id wins. */
    method PriorOpen() returns (prior: map<string, nat>)
      ensures prior.Keys == OpenPaths(rows)
      ensures forall p :: p in prior ==> prior[p] < |rows| && rows[prior[p]].path == p && Open(rows[prior[p]])
    {
      prior := map[];
      for i := 0 to |rows|
        invariant forall p :: p in prior ==> prior[p] < i && rows[prior[p]].path == p && Open(rows[prior[p]])
        invariant forall j :: 0 <= j < i && Open(rows[j]) ==> rows[j].path in prior
      {
        if Open(rows[i]) { prior := prior[rows[i].path := i]; }
      }
    }

    /**
      One reconciliation in one transaction. With any scan id and any findings, repeated paths
      included, the committed table and the report are exactly the ones specified; when the
      transaction fails, nothing changes.
     */
    method Reconcile(scan: int, findings: seq<Finding>, commits: bool) returns (r: Option<Report>)
      modifies this
      ensures lastScan == old(lastScan)
      ensures !commits ==> r == None && rows == old(rows)
      ensures commits ==> r.Some? && Reconciled(old(rows), rows, scan, Anomalies(findings))
                          && Reports(r.value, old(rows), Anomalies(findings))
    {
      var anomalies := FilterAnomalies(findings);
      var prior := PriorOpen();
      var tx, report := Record(prior, scan, anomalies);
      tx, report := Resolve(prior, scan, anomalies, tx, report);
      if !commits { return None; }
      rows := tx;
      return Some(report);
    }

    method Record(prior: map<string, nat>, scan: int, anomalies: seq<Finding>)
      returns (tx: seq<Row>, report: Report)
      requires prior.Keys == OpenPaths(rows)
      ensures Midway(rows, tx, scan, anomalies, {})
      ensures report.added == Lines(Select(anomalies, OpenPaths(rows), false))
      ensures report.outstanding == Lines(Select(anomalies, OpenPaths(rows), true))
      ensures report.resolved == []
    {
      tx, report := rows, Report([], [], []);
      assert anomalies[..0] == [];
      for i := 0 to |anomalies|
        invariant Midway(rows, tx, scan, anomalies[..i], {})
        invariant report.added == Lines(Select(anomalies[..i], OpenPaths(rows), false))
        invariant report.outstanding == Lines(Select(anomalies[..i], OpenPaths(rows), true))
        invariant report.resolved == []
      {
        hide Midway, Select, Lines, Bump, OpenPaths;
        var f := anomalies[i];
        assert anomalies[..i + 1] == anomalies[..i] + [f];
        SelectExtend(anomalies[..i], f, OpenPaths(rows), false);
        SelectExtend(anomalies[..i], f, OpenPaths(rows), true);
        LinesExtend(Select(anomalies[..i], OpenPaths(rows), f.path in OpenPaths(rows)), f);
        if f.path in prior {
          MidwayBump(rows, tx, scan, anomalies[..i], f);
          tx := Bump(tx, scan, f);
          report := report.(outstanding := report.outstanding + [Line(f.path, f.detail)]);
        } else {
          MidwayAdd(rows, tx, scan, anomalies[..i], f);
          tx := tx + [NewRow(f, scan)];
          report := report.(added := report.added + [Line(f.path, f.detail)]);
        }
      }
      assert anomalies[..|anomalies|] == anomalies;
    }

    method Resolve(prior: map<string, nat>, scan: int, anomalies: seq<Finding>, tx: seq<Row>, report: Report)
      returns (tx': seq<Row>, report': Report)
      requires prior.Keys == OpenPaths(rows) && Midway(rows, tx, scan, anomalies, {}) && report.resolved == []
      ensures Reconciled(rows, tx', scan, anomalies)
      ensures report' == report.(resolved := report'.resolved)
      ensures LinePaths(report'.resolved) == OpenPaths(rows) - Paths(anomalies)
      ensures forall i :: 0 <= i < |report'.resolved| ==> report'.resolved[i].detail == ""
      ensures forall i, j :: 0 <= i < j < |report'.resolved| ==> report'.resolved[i].path != report'.resolved[j].path
    {
      tx', report' := tx, report;
      var todo := prior.Keys;
      ghost var done: set<string> := {};
      var current := Paths(anomalies);
      while todo != {}
        invariant todo !! done && todo + done == prior.Keys
        invariant Midway(rows, tx', scan, anomalies, done)
        invariant report' == report.(resolved := report'.resolved)
        invariant forall i :: 0 <= i < |report'.resolved| ==> report'.resolved[i].detail == ""
        invariant LinePaths(report'.resolved) == done - current
        invariant forall i, j :: 0 <= i < j < |report'.resolved| ==>
          report'.resolved[i].path != report'.resolved[j].path
      {
        hide Midway, Close;
        var p :| p in todo;
        MidwayClose(rows, tx', scan, anomalies, done, p);
        LinePathsExtend(report'.resolved, Line(p, ""));
        if p !in current {
          tx' := Close(tx', scan, p);
          report' := report'.(resolved := report'.resolved + [Line(p, "")]);
        }
        todo, done := todo - {p}, done + {p};
      }
      hide Midway, Reconciled;
      assert done == OpenPaths(rows);
      MidwayIsDone(rows, tx', scan, anomalies);
    }
  }
}
