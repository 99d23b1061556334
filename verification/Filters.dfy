/** What it means to keep some elements of a list, each occurrence of them, in order. */
module Filters {

  ghost predicate Ascending(at: seq<int>) { forall k, l :: 0 <= k < l < |at| ==> at[k] < at[l] }

  /** `at` lists, in ascending order, exactly the positions of `xs` that are kept, and `ys` what stands there. */
  ghost predicate Picks<T(!new)>(xs: seq<T>, keep: T -> bool, ys: seq<T>, at: seq<int>) {
    && |at| == |ys| && Ascending(at)
    && (forall k :: 0 <= k < |at| ==> 0 <= at[k] < |xs| && ys[k] == xs[at[k]] && keep(ys[k]))
    && (forall i :: 0 <= i < |xs| && keep(xs[i]) ==> i in at)
  }

  ghost predicate IsFilter<T(!new)>(xs: seq<T>, keep: T -> bool, ys: seq<T>) {
    exists at :: Picks(xs, keep, ys, at)
  }

  lemma FilterNone<T(!new)>(keep: T -> bool)
    ensures IsFilter([], keep, [])
  {
    assert Picks<T>([], keep, [], []);
  }

  lemma FilterSkips<T(!new)>(xs: seq<T>, keep: T -> bool, ys: seq<T>, x: T)
    requires IsFilter(xs, keep, ys) && !keep(x)
    ensures IsFilter(xs + [x], keep, ys)
  {
    var at :| Picks(xs, keep, ys, at);
    assert Picks(xs + [x], keep, ys, at);
  }

  lemma FilterKeeps<T(!new)>(xs: seq<T>, keep: T -> bool, ys: seq<T>, x: T)
    requires IsFilter(xs, keep, ys) && keep(x)
    ensures IsFilter(xs + [x], keep, ys + [x])
  {
    var at :| Picks(xs, keep, ys, at);
    PicksOneMore(xs, keep, ys, at, x);
  }

  lemma PicksOneMore<T(!new)>(xs: seq<T>, keep: T -> bool, ys: seq<T>, at: seq<int>, x: T)
    requires Picks(xs, keep, ys, at) && keep(x)
    ensures Picks(xs + [x], keep, ys + [x], at + [|xs|])
  {
    var at', xs', ys' := at + [|xs|], xs + [x], ys + [x];
    assert Ascending(at') by {
      forall k, l | 0 <= k < l < |at'| ensures at'[k] < at'[l] { assert at'[k] == at[k]; }
    }
    hide Ascending;
    forall k | 0 <= k < |at'| ensures 0 <= at'[k] < |xs'| && ys'[k] == xs'[at'[k]] && keep(ys'[k]) {
      if k < |at| { assert at'[k] == at[k] && ys'[k] == ys[k] && xs'[at[k]] == xs[at[k]]; }
    }
    forall i | 0 <= i < |xs'| && keep(xs'[i]) ensures i in at' {
      if i < |xs| {
        assert xs'[i] == xs[i];
        var k :| 0 <= k < |at| && at[k] == i;
        assert at'[k] == i;
      } else {
        assert at'[|at|] == i;
      }
    }
  }

  lemma FilterMembers<T(!new)>(xs: seq<T>, keep: T -> bool, ys: seq<T>, x: T)
    requires IsFilter(xs, keep, ys)
    ensures x in ys <==> x in xs && keep(x)
  {
    var at :| Picks(xs, keep, ys, at);
    if x in xs && keep(x) {
      var i :| 0 <= i < |xs| && xs[i] == x;
      assert i in at;
      var k :| 0 <= k < |at| && at[k] == i;
      assert ys[k] == x;
    }
  }

  /** Dropping the last element drops it from the filtered list, if it was kept. */
  lemma FilterPeels<T(!new)>(xs: seq<T>, keep: T -> bool, ys: seq<T>)
    requires xs != [] && IsFilter(xs, keep, ys)
    ensures var x, rest := xs[|xs| - 1], xs[..|xs| - 1];
      if keep(x) then ys != [] && ys[|ys| - 1] == x && IsFilter(rest, keep, ys[..|ys| - 1])
      else IsFilter(rest, keep, ys)
  {
    var n := |xs| - 1;
    var at :| Picks(xs, keep, ys, at);
    if keep(xs[n]) {
      PicksLast(xs, keep, ys, at);
      PicksPeel(xs, keep, ys, at);
    } else {
      forall k | 0 <= k < |at| ensures at[k] < n && xs[..n][at[k]] == ys[k] { assert keep(ys[k])
        && ys[k] == xs[at[k]]; }
      forall i | 0 <= i < n && keep(xs[..n][i]) ensures i in at { assert xs[..n][i] == xs[i]; }
      assert Picks(xs[..n], keep, ys, at);
    }
  }

  lemma PicksLast<T(!new)>(xs: seq<T>, keep: T -> bool, ys: seq<T>, at: seq<int>)
    requires xs != [] && Picks(xs, keep, ys, at) && keep(xs[|xs| - 1])
    ensures at != [] && at[|at| - 1] == |xs| - 1
  {
    var n := |xs| - 1;
    assert n in at;
    var k :| 0 <= k < |at| && at[k] == n;
    if k < |at| - 1 { assert at[k] < at[|at| - 1]; }
  }

  lemma PicksPeel<T(!new)>(xs: seq<T>, keep: T -> bool, ys: seq<T>, at: seq<int>)
    requires xs != [] && Picks(xs, keep, ys, at) && at != [] && at[|at| - 1] == |xs| - 1
    ensures Picks(xs[..|xs| - 1], keep, ys[..|ys| - 1], at[..|at| - 1])
  {
    var n, m := |xs| - 1, |at| - 1;
    assert Ascending(at[..m]);
    forall k | 0 <= k < m ensures 0 <= at[..m][k] < n && ys[..m][k] == xs[..n][at[..m][k]] && keep(ys[..m][k]) {
      assert at[k] < at[m];
    }
    hide Ascending;
    forall i | 0 <= i < n && keep(xs[..n][i]) ensures i in at[..m] {
      assert xs[i] == xs[..n][i];
      var k :| 0 <= k < |at| && at[k] == i;
      assert at[..m][k] == i;
    }
  }

  lemma InRange<T(!new)>(xs: seq<T>, keep: T -> bool, ys: seq<T>, at: seq<int>)
    requires Picks(xs, keep, ys, at) && at != []
    ensures 0 <= at[0] < |xs|
  {}

  lemma FilterOfNone<T(!new)>(keep: T -> bool, ys: seq<T>)
    requires IsFilter([], keep, ys)
    ensures ys == []
  {
    var at :| Picks([], keep, ys, at);
    if at != [] { InRange([], keep, ys, at); }
  }

  /** There is only one filtered list. */
  lemma {:induction false} FilterIsUnique<T(!new)>(xs: seq<T>, keep: T -> bool, ys: seq<T>, zs: seq<T>)
    requires IsFilter(xs, keep, ys) && IsFilter(xs, keep, zs)
    ensures ys == zs
  {
    hide IsFilter;
    if xs == [] {
      FilterOfNone(keep, ys);
      FilterOfNone(keep, zs);
    } else {
      FilterPeels(xs, keep, ys);
      FilterPeels(xs, keep, zs);
      if keep(xs[|xs| - 1]) {
        FilterIsUnique(xs[..|xs| - 1], keep, ys[..|ys| - 1], zs[..|zs| - 1]);
        assert ys == ys[..|ys| - 1] + [ys[|ys| - 1]] && zs == zs[..|zs| - 1] + [zs[|zs| - 1]];
      } else {
        FilterIsUnique(xs[..|xs| - 1], keep, ys, zs);
      }
    }
  }
}
