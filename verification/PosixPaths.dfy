/** Slash-separated paths, and how `PurePosixPath` normalises a relative one. */
module PosixPaths {

  /** The pieces between slashes, empty ones included. */
  function Components(s: string): (cs: seq<string>)
    ensures cs != []
  {
    if s == "" then [""]
    else
      var rest := Components(s[1..]);
      if s[0] == '/' then [""] + rest else [[s[0]] + rest[0]] + rest[1..]
  }

  /** `PurePosixPath` drops empty and `.` components; `..` stays. */
  function Kept(cs: seq<string>): seq<string> {
    if cs == [] then [] else (if cs[0] == "" || cs[0] == "." then [] else [cs[0]]) + Kept(cs[1..])
  }

  function Joined(cs: seq<string>): string {
    if cs == [] then "" else if |cs| == 1 then cs[0] else cs[0] + "/" + Joined(cs[1..])
  }

  /** `str(PurePosixPath(s))` for a path that does not start with a slash. */
  function Normal(s: string): string { Joined(Kept(Components(s))) }

  predicate NoSlash(s: string) { '/' !in s }

  // ---------------------------------------------------------------- components and joining

  lemma {:induction false} ComponentsJoin(s: string)
    ensures Joined(Components(s)) == s
  {
    if s != "" {
      var rest := Components(s[1..]);
      ComponentsJoin(s[1..]);
      assert s == [s[0]] + s[1..];
      if s[0] == '/' {
        assert ([""] + rest)[1..] == rest;
      } else {
        var cs := [[s[0]] + rest[0]] + rest[1..];
        assert cs[1..] == rest[1..];
      }
    }
  }

  lemma {:induction false} ComponentsHaveNoSlash(s: string)
    ensures forall c :: c in Components(s) ==> NoSlash(c)
  {
    if s != "" {
      ComponentsHaveNoSlash(s[1..]);
      var rest := Components(s[1..]);
      assert rest[0] in rest;
    }
  }

  lemma {:induction false} ComponentsOfOne(s: string)
    requires NoSlash(s)
    ensures Components(s) == [s]
  {
    if s != "" {
      ComponentsOfOne(s[1..]);
      assert s == [s[0]] + s[1..];
    }
  }

  lemma {:induction false} ComponentsOfBelow(a: string, b: string)
    ensures Components(a + "/" + b) == Components(a) + Components(b)
  {
    var s := a + "/" + b;
    if a == "" {
      assert s[1..] == b;
    } else {
      assert s[1..] == a[1..] + "/" + b;
      ComponentsOfBelow(a[1..], b);
    }
  }

  lemma {:induction false} ComponentsOfJoined(cs: seq<string>)
    requires cs != [] && forall c :: c in cs ==> NoSlash(c)
    ensures Components(Joined(cs)) == cs
  {
    ComponentsOfOne(cs[0]);
    if |cs| > 1 {
      ComponentsOfBelow(cs[0], Joined(cs[1..]));
      ComponentsOfJoined(cs[1..]);
    }
  }

  lemma {:induction false} KeptOf(cs: seq<string>)
    ensures forall c :: c in Kept(cs) <==> c in cs && c != "" && c != "."
    ensures (forall c :: c in cs ==> c != "" && c != ".") ==> Kept(cs) == cs
  {
    if cs != [] {
      KeptOf(cs[1..]);
      assert cs == [cs[0]] + cs[1..];
      if cs[0] == "" || cs[0] == "." {
        assert cs[0] in cs;
        assert Kept(cs) == Kept(cs[1..]);
      } else {
        assert Kept(cs) == [cs[0]] + Kept(cs[1..]);
        forall c | c in cs[1..] ensures c in cs {}
      }
    }
  }

  // ---------------------------------------------------------------- plain paths

  /** Every component is there and none starts with a dot. */
  predicate Plain(s: string) { forall c :: c in Components(s) ==> c != "" && c[0] != '.' }

  lemma PlainBelow(dir: string, base: string)
    requires Plain(dir) && NoSlash(base) && base != "" && base[0] != '.'
    ensures Plain(dir + "/" + base)
  {
    ComponentsOfBelow(dir, base);
    ComponentsOfOne(base);
  }

  lemma PlainIsNormal(s: string)
    requires Plain(s)
    ensures Normal(s) == s && s != "" && s[0] != '/' && ".." !in Components(s)
  {
    KeptOf(Components(s));
    ComponentsJoin(s);
    assert Components(s)[0] in Components(s);
  }

  /** Normalising loses no `..`. */
  lemma NormalKeepsDotDot(s: string)
    requires Plain(Normal(s))
    ensures ".." !in Components(s)
  {
    var kept := Kept(Components(s));
    if ".." in Components(s) {
      KeptOf(Components(s));
      ComponentsHaveNoSlash(s);
      ComponentsOfJoined(kept);
    }
  }

  lemma {:induction false} KeptConcat(a: seq<string>, b: seq<string>)
    ensures Kept(a + b) == Kept(a) + Kept(b)
  {
    if a == [] {
      assert a + b == b;
    } else {
      assert (a + b)[1..] == a[1..] + b;
      KeptConcat(a[1..], b);
    }
  }

  lemma DoubledSlash(dir: string, base: string)
    ensures Normal(dir + "//" + base) == Normal(dir + "/" + base)
  {
    var d, b, below := Components(dir), Components(base), "" + "/" + base;
    assert dir + "//" + base == dir + "/" + below;
    ComponentsOfBelow(dir, below);
    ComponentsOfBelow("", base);
    ComponentsOfBelow(dir, base);
    assert Components(below) == [""] + b;
    KeptConcat(d, [""] + b);
    KeptConcat(d, b);
    assert ([""] + b)[1..] == b;
    assert Kept([""] + b) == Kept(b);
  }
}
