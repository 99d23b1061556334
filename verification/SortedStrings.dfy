/** Strings in code point order, and the sorted listing of a finite set of them. */
module SortedStrings {

  predicate Leq(a: string, b: string) {
    a == "" || (b != "" && (a[0] < b[0] || (a[0] == b[0] && Leq(a[1..], b[1..]))))
  }

  /** Code point order: a proper prefix first, otherwise by the first character that differs. */
  lemma {:induction false} LeqIs(a: string, b: string)
    ensures Leq(a, b) <==>
      exists k :: 0 <= k <= |a| && k <= |b| && a[..k] == b[..k] && (k == |a| || (k < |b| && a[k] < b[k]))
  {
    if a == "" {
      assert a[..0] == b[..0];
    } else if b != "" && a[0] == b[0] {
      LeqIs(a[1..], b[1..]);
      if Leq(a, b) {
        var k :| 0 <= k <= |a[1..]| && k <= |b[1..]| && a[1..][..k] == b[1..][..k]
                 && (k == |a[1..]| || (k < |b[1..]| && a[1..][k] < b[1..][k]));
        assert a[..k + 1] == [a[0]] + a[1..][..k] && b[..k + 1] == [b[0]] + b[1..][..k];
        assert 0 <= k + 1 <= |a| && k + 1 <= |b| && a[..k + 1] == b[..k + 1];
      }
      if k :| 0 <= k <= |a| && k <= |b| && a[..k] == b[..k] && (k == |a| || (k < |b| && a[k] < b[k])) {
        if k > 0 { Peeled(a, b, k); }
      }
    } else {
      if k :| 0 <= k <= |a| && k <= |b| && a[..k] == b[..k] && (k == |a| || (k < |b| && a[k] < b[k])) {
        if k > 0 { SameFirst(a, b, k); }
      }
      assert a[..0] == b[..0];
    }
  }

  lemma SameFirst(a: string, b: string, k: nat)
    requires 0 < k <= |a| && k <= |b| && a[..k] == b[..k]
    ensures a[0] == b[0]
  {
    assert a[0] == a[..k][0] && b[0] == b[..k][0];
  }

  lemma Peeled(a: string, b: string, k: nat)
    requires 0 < k <= |a| && k <= |b| && a[..k] == b[..k]
    ensures a[1..][..k - 1] == b[1..][..k - 1]
  {
    assert a[1..][..k - 1] == a[..k][1..] && b[1..][..k - 1] == b[..k][1..];
  }

  lemma {:induction false} Total(a: string, b: string)
    ensures Leq(a, b) || Leq(b, a)
    ensures Leq(a, b) && Leq(b, a) ==> a == b
  {
    if a != "" && b != "" && a[0] == b[0] {
      Total(a[1..], b[1..]);
      assert a == [a[0]] + a[1..] && b == [b[0]] + b[1..];
    }
  }

  lemma {:induction false} Transitive(a: string, b: string, c: string)
    requires Leq(a, b) && Leq(b, c)
    ensures Leq(a, c)
  {
    if a != "" && a[0] == b[0] && b[0] == c[0] { Transitive(a[1..], b[1..], c[1..]); }
  }

  lemma {:induction false} PrefixIsLess(a: string, tail: string)
    ensures Leq(a, a + tail)
  {
    if a != "" {
      assert (a + tail)[1..] == a[1..] + tail;
      PrefixIsLess(a[1..], tail);
    }
  }

  ghost predicate IsLeast(m: string, s: set<string>) { m in s && forall x :: x in s ==> Leq(m, x) }

  lemma {:induction false} LeastExists(s: set<string>)
    requires s != {}
    ensures exists m :: IsLeast(m, s)
    decreases |s|
  {
    var x :| x in s;
    Total(x, x);
    if s == {x} {
      assert IsLeast(x, s);
    } else {
      var rest := s - {x};
      assert rest != {};
      LeastExists(rest);
      var m :| IsLeast(m, rest);
      Total(x, m);
      if Leq(x, m) {
        forall y | y in s ensures Leq(x, y) { if y != x { Transitive(x, m, y); } }
        assert IsLeast(x, s);
      } else {
        assert IsLeast(m, s);
      }
    }
  }

  ghost function Least(s: set<string>): (m: string)
    requires s != {}
    ensures IsLeast(m, s)
  {
    LeastExists(s);
    var m :| IsLeast(m, s);
    m
  }

  ghost function Sorted(s: set<string>): seq<string> {
    if s == {} then [] else [Least(s)] + Sorted(s - {Least(s)})
  }

  /** The listing holds every element once, in order. */
  lemma {:induction false} SortedLists(s: set<string>)
    ensures forall x :: x in Sorted(s) <==> x in s
    ensures forall i, j :: 0 <= i < j < |Sorted(s)| ==> Leq(Sorted(s)[i], Sorted(s)[j]) && Sorted(s)[i] != Sorted(s)[j]
    decreases |s|
  {
    if s != {} {
      var m := Least(s);
      var rest := Sorted(s - {m});
      SortedLists(s - {m});
      assert Sorted(s) == [m] + rest;
      forall i, j | 0 <= i < j < |Sorted(s)|
        ensures Leq(Sorted(s)[i], Sorted(s)[j]) && Sorted(s)[i] != Sorted(s)[j]
      {
        assert Sorted(s)[j] == rest[j - 1] && rest[j - 1] in rest;
        if i > 0 { assert Sorted(s)[i] == rest[i - 1]; }
      }
    }
  }

  lemma LeastIs(m: string, s: set<string>)
    requires IsLeast(m, s)
    ensures s != {} && Least(s) == m
  {
    Total(m, Least(s));
  }

  method FindLeast(s: set<string>) returns (m: string)
    requires s != {}
    ensures IsLeast(m, s)
  {
    m :| m in s;
    Total(m, m);
    var todo := s - {m};
    while todo != {}
      invariant todo <= s && IsLeast(m, s - todo)
    {
      var x :| x in todo;
      Total(x, m);
      Total(x, x);
      if Leq(x, m) {
        forall y | y in s - todo ensures Leq(x, y) { Transitive(x, m, y); }
        m := x;
      }
      todo := todo - {x};
    }
    assert s - todo == s;
  }

  /** Sorting, by taking the least element again and again. */
  method SortSet(s: set<string>) returns (sorted: seq<string>)
    ensures sorted == Sorted(s)
  {
    sorted := [];
    var rest := s;
    while rest != {}
      invariant sorted + Sorted(rest) == Sorted(s)
    {
      var m := FindLeast(rest);
      LeastIs(m, rest);
      sorted := sorted + [m];
      rest := rest - {m};
    }
  }
}
