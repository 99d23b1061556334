/** Rule names a command is working on: claims are all or nothing and end with their guard. */
module BusyNames {
  import opened Options

  type Names = seq<string>

  function SetOf(names: Names): set<string> { set n | n in names }

  /** The names of all live guards. */
  function Held(guards: map<nat, Names>): set<string> { set g, n | g in guards && n in guards[g] :: n }

  class Busy {
    var busy: set<string>

    constructor ()
      ensures busy == {}
    {
      busy := {};
    }

    /** Mark every name busy, or none of them if any already is. A claim may repeat a name. */
    method Claim(names: Names) returns (ok: bool)
      modifies this
      ensures ok <==> SetOf(names) !! old(busy)
      ensures busy == if ok then old(busy) + SetOf(names) else old(busy)
      ensures forall guards, g | g !in guards ::
        Steps(State(old(busy), guards), if ok then Label.Claim(g, names) else Refuse(names), busy)
    {
      for i := 0 to |names|
        invariant forall j :: 0 <= j < i ==> names[j] !in busy
        invariant busy == old(busy)
      {
        if names[i] in busy {
          assert names[i] in SetOf(names) * busy;
          return false;
        }
      }
      for i := 0 to |names|
        invariant busy == old(busy) + SetOf(names[..i])
      {
        assert names[..i + 1] == names[..i] + [names[i]];
        busy := busy + {names[i]};
      }
      assert names[..|names|] == names;
      assert SetOf(names) !! old(busy);
      return true;
    }

    /** `BusyGuard::drop`. */
    method Release(names: Names)
      modifies this
      ensures busy == old(busy) - SetOf(names)
      ensures forall guards, g | g in guards && guards[g] == names :: Steps(State(old(busy), guards), Drop(g), busy)
    {
      for i := 0 to |names|
        invariant busy == old(busy) - SetOf(names[..i])
      {
        assert names[..i + 1] == names[..i] + [names[i]];
        busy := busy - {names[i]};
      }
      assert names[..|names|] == names;
    }
  }

  // ---------------------------------------------------------------- runs

  datatype State = State(busy: set<string>, guards: map<nat, Names>)

  datatype Label = Claim(guard: nat, names: Names) | Refuse(names: Names) | Drop(guard: nat)

  predicate Enabled(s: State, l: Label) {
    match l
    case Claim(g, names) => g !in s.guards && SetOf(names) !! s.busy
    case Refuse(names) => !(SetOf(names) !! s.busy)
    case Drop(g) => g in s.guards
  }

  function Apply(s: State, l: Label): State
    requires Enabled(s, l)
  {
    match l
    case Claim(g, names) => State(s.busy + SetOf(names), s.guards[g := names])
    case Refuse(_) => s
    case Drop(g) => State(s.busy - SetOf(s.guards[g]), s.guards - {g})
  }

  /** One call is that step of the run system, whatever other guards are live. */
  ghost predicate Steps(s: State, l: Label, busy: set<string>) { Enabled(s, l) && Apply(s, l).busy == busy }

  ghost predicate IsRun(ss: seq<State>, ls: seq<Label>) {
    && |ss| == |ls| + 1 && ss[0] == State({}, map[])
    && forall i {:trigger ls[i]} :: 0 <= i < |ls| ==> Enabled(ss[i], ls[i]) && ss[i + 1] == Apply(ss[i], ls[i])
  }

  ghost predicate DisjointUnion(s: State) {
    && s.busy == Held(s.guards)
    && forall g, h :: g in s.guards && h in s.guards && g != h ==> SetOf(s.guards[g]) !! SetOf(s.guards[h])
  }

  lemma StepKeepsUnion(s: State, l: Label)
    requires DisjointUnion(s) && Enabled(s, l)
    ensures DisjointUnion(Apply(s, l))
  {
    var s' := Apply(s, l);
    if l.Claim? {
      forall g | g in s.guards ensures SetOf(s.guards[g]) !! SetOf(l.names) {
        assert SetOf(s.guards[g]) <= Held(s.guards);
      }
      forall n | n in SetOf(l.names) ensures n in Held(s'.guards) {
        assert l.guard in s'.guards && n in s'.guards[l.guard];
      }
    }
    forall n | n in s'.busy ensures n in Held(s'.guards) {
      if n in s.busy {
        var g :| g in s.guards && n in s.guards[g];
        assert g in s'.guards && n in s'.guards[g];
      }
    }
    forall n | n in Held(s'.guards) ensures n in s'.busy {
      var g :| g in s'.guards && n in s'.guards[g];
      if g in s.guards { assert n in Held(s.guards); }
      if l.Drop? { assert SetOf(s.guards[g]) !! SetOf(s.guards[l.guard]); assert n in SetOf(s.guards[g]); }
    }
  }

  /** The busy set is always the disjoint union of the live guards' names. */
  lemma {:induction false} BusyIsUnionOfGuards(ss: seq<State>, ls: seq<Label>, n: nat)
    requires IsRun(ss, ls) && n <= |ls|
    ensures DisjointUnion(ss[n])
  {
    if n > 0 {
      BusyIsUnionOfGuards(ss, ls, n - 1);
      StepKeepsUnion(ss[n - 1], ls[n - 1]);
    }
  }

  /** Dropping a guard frees all of its own names and none of any other guard's. */
  lemma DropFreesOnlyItsOwn(ss: seq<State>, ls: seq<Label>, k: nat, h: nat)
    requires IsRun(ss, ls) && k < |ls| && ls[k].Drop? && h in ss[k].guards && h != ls[k].guard
    ensures SetOf(ss[k].guards[ls[k].guard]) !! ss[k + 1].busy
    ensures h in ss[k + 1].guards && SetOf(ss[k].guards[h]) <= ss[k + 1].busy
  {
    BusyIsUnionOfGuards(ss, ls, k);
    forall n | n in SetOf(ss[k].guards[h]) ensures n in ss[k + 1].busy {
      assert n in Held(ss[k].guards);
    }
  }
}
