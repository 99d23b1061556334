/** `applyUpdateRules`: rebuilding the rule list from removed ids, added rules and their indexes. */
module RulesDelta {
  import opened Filters

  datatype Rule = Rule(id: int, body: string)

  /** The rules whose id was not removed, in order. */
  function Survivors(rules: seq<Rule>, removed: set<int>): seq<Rule> {
    if rules == [] then []
    else
      var n := |rules| - 1;
      var rest := Survivors(rules[..n], removed);
      if rules[n].id in removed then rest else rest + [rules[n]]
  }

  /** The survivors are the rules with an id that was not removed, each occurrence in order. */
  lemma {:induction false} SurvivorsAre(rules: seq<Rule>, removed: set<int>)
    ensures IsFilter(rules, (r: Rule) => r.id !in removed, Survivors(rules, removed))
  {
    hide IsFilter;
    var keep := (r: Rule) => r.id !in removed;
    if rules == [] {
      FilterNone(keep);
    } else {
      var n := |rules| - 1;
      SurvivorsAre(rules[..n], removed);
      assert rules == rules[..n] + [rules[n]];
      if keep(rules[n]) {
        FilterKeeps(rules[..n], keep, Survivors(rules[..n], removed), rules[n]);
      } else {
        FilterSkips(rules[..n], keep, Survivors(rules[..n], removed), rules[n]);
      }
    }
  }

  /** The start position of JavaScript's `splice`: counted from the end if negative, clamped to the list. */
  function SpliceStart(length: nat, index: int): nat {
    if index < 0 then (if length + index < 0 then 0 else length + index)
    else if index > length then length else index
  }

  function Splice(rules: seq<Rule>, index: int, rule: Rule): seq<Rule> {
    var at := SpliceStart(|rules|, index);
    rules[..at] + [rule] + rules[at..]
  }

  /**
    One `splice` puts the rule before the one at the index; at the end if the index is past it, and
    counted from the end, but never before the first, if it is negative.
   */
  lemma SplicePuts(rules: seq<Rule>, index: int, rule: Rule)
    ensures var r := Splice(rules, index, rule);
      && (index >= |rules| ==> r == rules + [rule])
      && (index <= -|rules| ==> r == [rule] + rules)
      && (0 <= index < |rules| ==> r[..index] == rules[..index] && r[index] == rule && r[index + 1..] == rules[index..])
      && (-|rules| < index < 0 ==> r == rules[..|rules| + index] + [rule] + rules[|rules| + index..])
  {}

  /** The index used for the `i`-th added rule: a missing one converts to 0. */
  function IndexOf(indexes: seq<int>, i: nat): int { if i < |indexes| then indexes[i] else 0 }

  /** A rule without an index of its own goes to the front. */
  lemma MissingIndexIsFront(rules: seq<Rule>, indexes: seq<int>, i: nat, rule: Rule)
    requires i >= |indexes|
    ensures Splice(rules, IndexOf(indexes, i), rule) == [rule] + rules
  {}

  function Spliced(base: seq<Rule>, added: seq<Rule>, indexes: seq<int>): seq<Rule> {
    if added == [] then base
    else
      var n := |added| - 1;
      Splice(Spliced(base, added[..n], indexes), IndexOf(indexes, n), added[n])
  }

  /** The list part of `applyUpdateRules`, for any message whatever. */
  method ApplyUpdateRules(current: seq<Rule>, removed: seq<int>, added: seq<Rule>, indexes: seq<int>)
    returns (next: seq<Rule>)
    ensures next == Spliced(Survivors(current, set id | id in removed), added, indexes)
    ensures exists base ::
      IsFilter(current, (r: Rule) => r.id !in removed, base) && next == Spliced(base, added, indexes)
  {
    hide IsFilter;
    var removedSet := set id | id in removed;
    next := [];
    for i := 0 to |current|
      invariant next == Survivors(current[..i], removedSet)
    {
      assert current[..i + 1][..i] == current[..i];
      if current[i].id !in removedSet { next := next + [current[i]]; }
    }
    assert current[..|current|] == current;
    ghost var base := next;
    for i := 0 to |added|
      invariant next == Spliced(base, added[..i], indexes)
    {
      assert added[..i + 1][..i] == added[..i];
      next := Splice(next, IndexOf(indexes, i), added[i]);
    }
    assert added[..|added|] == added;
    SurvivorsAre(current, removedSet);
    SameRules(current, (r: Rule) => r.id !in removedSet, (r: Rule) => r.id !in removed, base);
  }

  lemma SameRules(rules: seq<Rule>, keep: Rule -> bool, same: Rule -> bool, kept: seq<Rule>)
    requires IsFilter(rules, keep, kept) && forall r :: keep(r) == same(r)
    ensures IsFilter(rules, same, kept)
  {
    var at :| Picks(rules, keep, kept, at);
    assert Picks(rules, same, kept, at);
  }

  // ---------------------------------------------------------------- exactness

  /** The list without the given positions. */
  function Rest(rules: seq<Rule>, positions: set<int>): seq<Rule> {
    if rules == [] then []
    else
      var n := |rules| - 1;
      var rest := Rest(rules[..n], positions);
      if n in positions then rest else rest + [rules[n]]
  }

  function Positions(indexes: seq<int>): set<int> { set i | i in indexes }

  ghost predicate Ascending(indexes: seq<int>) {
    && (forall i :: 0 <= i < |indexes| ==> 0 <= indexes[i])
    && forall i, j :: 0 <= i < j < |indexes| ==> indexes[i] < indexes[j]
  }

  /** The indexes are the ascending positions of the added rules in the target list. */
  ghost predicate Places(target: seq<Rule>, added: seq<Rule>, indexes: seq<int>) {
    && |indexes| == |added| && Ascending(indexes)
    && forall i :: 0 <= i < |added| ==> indexes[i] < |target| && target[indexes[i]] == added[i]
  }

  lemma {:induction false} AscendingGap(indexes: seq<int>, i: int, j: int)
    requires Ascending(indexes) && 0 <= i <= j < |indexes|
    ensures indexes[j] - indexes[i] >= j - i
  {
    if i < j { AscendingGap(indexes, i, j - 1); }
  }

  /** Positions at or past the end do not matter. */
  lemma {:induction false} RestIgnoresBeyond(rules: seq<Rule>, positions: set<int>, p: int)
    requires p >= |rules|
    ensures Rest(rules, positions + {p}) == Rest(rules, positions)
  {
    if rules != [] { RestIgnoresBeyond(rules[..|rules| - 1], positions, p); }
  }

  /** Leaving out the last of the positions is leaving out the others of the list without it. */
  lemma {:induction false} RestPeels(rules: seq<Rule>, positions: set<int>, m: nat)
    requires m < |rules| && forall p :: p in positions ==> p < m
    ensures Rest(rules, positions + {m}) == Rest(rules[..m] + rules[m + 1..], positions)
  {
    var n := |rules| - 1;
    var without := rules[..m] + rules[m + 1..];
    if m == n {
      RestIgnoresBeyond(rules[..n], positions, m);
      assert without == rules[..n];
    } else {
      RestPeels(rules[..n], positions, m);
      assert without[..|without| - 1] == rules[..n][..m] + rules[..n][m + 1..];
      assert without[|without| - 1] == rules[n];
    }
  }

  lemma PositionsPeel(indexes: seq<int>)
    requires Ascending(indexes) && indexes != []
    ensures var n := |indexes| - 1;
      && Positions(indexes) == Positions(indexes[..n]) + {indexes[n]}
      && (forall p :: p in Positions(indexes[..n]) ==> p < indexes[n])
  {}

  lemma {:induction false} SplicedSkipsTail(base: seq<Rule>, added: seq<Rule>, indexes: seq<int>, k: nat)
    requires |added| <= k <= |indexes|
    ensures Spliced(base, added, indexes[..k]) == Spliced(base, added, indexes)
  {
    if added != [] { SplicedSkipsTail(base, added[..|added| - 1], indexes, k); }
  }

  /** Inserting a rule past all earlier positions keeps them and adds its own. */
  lemma InsertPlaces(before: seq<Rule>, added: seq<Rule>, indexes: seq<int>, m: nat, rule: Rule)
    requires Places(before, added, indexes) && m <= |before|
    requires forall i :: 0 <= i < |indexes| ==> indexes[i] < m
    ensures Places(before[..m] + [rule] + before[m..], added + [rule], indexes + [m])
  {}

  /** Splicing ascending in-range positions puts every rule at its position and keeps the base around them. */
  lemma {:induction false} SplicingPlaces(base: seq<Rule>, added: seq<Rule>, indexes: seq<int>)
    requires |indexes| == |added| && Ascending(indexes)
    requires added != [] ==> indexes[|added| - 1] < |base| + |added|
    ensures var r := Spliced(base, added, indexes);
      |r| == |base| + |added| && Places(r, added, indexes) && Rest(r, Positions(indexes)) == base
  {
    if added == [] {
      NoPositions(indexes);
      RestOfNothing(base);
    } else {
      hide *;
      var n := |added| - 1;
      SplicedBounds(base, added, indexes);
      SplicingPlaces(base, added[..n], indexes[..n]);
      SplicedStep(base, added, indexes);
      assert added[..n] + [added[n]] == added && indexes[..n] + [indexes[n]] == indexes;
      InsertKeepsRest(Spliced(base, added[..n], indexes[..n]), added[..n], indexes[..n], indexes[n], added[n]);
    }
  }

  lemma SplicedBounds(base: seq<Rule>, added: seq<Rule>, indexes: seq<int>)
    requires |indexes| == |added| && Ascending(indexes) && added != []
    requires indexes[|added| - 1] < |base| + |added|
    ensures var n := |added| - 1;
      && 0 <= indexes[n] && Ascending(indexes[..n]) && (forall i :: 0 <= i < n ==> indexes[..n][i] < indexes[n])
      && (n > 0 ==> indexes[..n][n - 1] < |base| + n)
  {}

  lemma SplicedStep(base: seq<Rule>, added: seq<Rule>, indexes: seq<int>)
    requires |indexes| == |added| && added != []
    requires 0 <= indexes[|added| - 1] <= |Spliced(base, added[..|added| - 1], indexes[..|added| - 1])|
    ensures var n := |added| - 1; var m := indexes[n]; var before := Spliced(base, added[..n], indexes[..n]);
      Spliced(base, added, indexes) == before[..m] + [added[n]] + before[m..]
  {
    SplicedSkipsTail(base, added[..|added| - 1], indexes, |added| - 1);
  }

  lemma InsertKeepsRest(before: seq<Rule>, added: seq<Rule>, indexes: seq<int>, m: nat, rule: Rule)
    requires Places(before, added, indexes) && m <= |before| && Ascending(indexes + [m])
    requires forall i :: 0 <= i < |indexes| ==> indexes[i] < m
    ensures var r := before[..m] + [rule] + before[m..];
      && Places(r, added + [rule], indexes + [m])
      && Rest(r, Positions(indexes + [m])) == Rest(before, Positions(indexes))
  {
    hide Rest, Positions, Places;
    var r, all := before[..m] + [rule] + before[m..], indexes + [m];
    assert all[..|indexes|] == indexes;
    InsertPlaces(before, added, indexes, m, rule);
    PositionsPeel(all);
    RestPeels(r, Positions(indexes), m);
    InsertThenRemove(before, m, rule);
  }

  lemma InsertThenRemove(before: seq<Rule>, m: nat, rule: Rule)
    requires m <= |before|
    ensures var r := before[..m] + [rule] + before[m..]; |r| == |before| + 1 && r[..m] + r[m + 1..] == before
  {}

  lemma NoPositions(indexes: seq<int>)
    requires indexes == []
    ensures Positions(indexes) == {}
  {}

  lemma {:induction false} RestOfNothing(rules: seq<Rule>)
    ensures Rest(rules, {}) == rules
  {
    if rules != [] { RestOfNothing(rules[..|rules| - 1]); }
  }

  lemma {:induction false} RestSize(rules: seq<Rule>, indexes: seq<int>)
    requires Ascending(indexes) && (indexes != [] ==> indexes[|indexes| - 1] < |rules|)
    ensures |Rest(rules, Positions(indexes))| == |rules| - |indexes|
  {
    if indexes == [] {
      NoPositions(indexes);
      RestOfNothing(rules);
    } else {
      var n := |indexes| - 1;
      var m := indexes[n];
      PositionsPeel(indexes);
      RestPeels(rules, Positions(indexes[..n]), m);
      if n > 0 { AscendingGap(indexes, n - 1, n); }
      RestSize(rules[..m] + rules[m + 1..], indexes[..n]);
    }
  }

  /** A list is determined by what stands at the positions and what stands around them. */
  lemma {:induction false} PlacesAndRestDetermine(a: seq<Rule>, b: seq<Rule>, added: seq<Rule>, indexes: seq<int>)
    requires Places(a, added, indexes) && Places(b, added, indexes)
    requires Rest(a, Positions(indexes)) == Rest(b, Positions(indexes))
    ensures a == b
    decreases |indexes|
  {
    hide Rest, Positions;
    if indexes == [] {
      NoPositions(indexes);
      RestOfNothing(a);
      RestOfNothing(b);
    } else {
      var n := |indexes| - 1;
      var m := indexes[n];
      PositionsPeel(indexes);
      RestPeels(a, Positions(indexes[..n]), m);
      RestPeels(b, Positions(indexes[..n]), m);
      var a', b' := a[..m] + a[m + 1..], b[..m] + b[m + 1..];
      RemovePlaces(a, added, indexes);
      RemovePlaces(b, added, indexes);
      PlacesAndRestDetermine(a', b', added[..n], indexes[..n]);
      assert a == a'[..m] + [a[m]] + a'[m..];
      assert b == b'[..m] + [b[m]] + b'[m..];
    }
  }

  lemma RemovePlaces(rules: seq<Rule>, added: seq<Rule>, indexes: seq<int>)
    requires Places(rules, added, indexes) && indexes != []
    ensures var n := |indexes| - 1; var m := indexes[n];
      Places(rules[..m] + rules[m + 1..], added[..n], indexes[..n])
  {}

  /**
    For every old list, every set of removed ids and every target in which the added rules stand
    at the given ascending positions: the rebuilt list is the target exactly when the rest of the
    target is the old list without the removed ids, in the old list's order.
   */
  lemma RebuildsIffSurvivorsKeepOrder(current: seq<Rule>, removed: set<int>, added: seq<Rule>, indexes: seq<int>,
                                      target: seq<Rule>)
    requires Places(target, added, indexes)
    ensures Spliced(Survivors(current, removed), added, indexes) == target <==>
            Survivors(current, removed) == Rest(target, Positions(indexes))
    ensures Spliced(Survivors(current, removed), added, indexes) == target <==>
            IsFilter(current, (r: Rule) => r.id !in removed, Rest(target, Positions(indexes)))
  {
    hide IsFilter;
    SurvivorsAre(current, removed);
    var rest := Rest(target, Positions(indexes));
    if IsFilter(current, (r: Rule) => r.id !in removed, rest) {
      FilterIsUnique(current, (r: Rule) => r.id !in removed, Survivors(current, removed), rest);
    }
    var base := Survivors(current, removed);
    RestSize(target, indexes);
    if base == Rest(target, Positions(indexes)) {
      SplicingPlaces(base, added, indexes);
      PlacesAndRestDetermine(Spliced(base, added, indexes), target, added, indexes);
    }
    if Spliced(base, added, indexes) == target {
      SplicedSize(base, added, indexes);
      SplicingPlaces(base, added, indexes);
    }
  }

  lemma {:induction false} SplicedSize(base: seq<Rule>, added: seq<Rule>, indexes: seq<int>)
    ensures |Spliced(base, added, indexes)| == |base| + |added|
  {
    if added != [] { SplicedSize(base, added[..|added| - 1], indexes); }
  }
}
