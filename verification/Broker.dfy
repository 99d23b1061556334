/** The broker's admission and idle shutdown, decided under one lock. */
module Broker {

  datatype BrokerState = Idle(lastFinished: int) | Running | Stopping

  datatype Admission = Admitted | Busy | ShuttingDown

  class ScanBroker {
    var state: BrokerState

    constructor (now: int)
      ensures state == Idle(now)
    {
      state := Idle(now);
    }

    method Begin() returns (r: Admission)
      modifies this
      ensures r == Admitted <==> old(state).Idle?
      ensures r == Busy <==> old(state) == Running
      ensures state == if r == Admitted then Running else old(state)
      ensures Steps(old(state), Label.Begin(r == Admitted), state)
    {
      match state
      case Idle(_) =>
        state := Running;
        return Admitted;
      case Running =>
        return Busy;
      case Stopping =>
        return ShuttingDown;
    }

    /** `ScanGuard::drop` overwrites whatever state it finds. */
    method DropGuard(now: int)
      modifies this
      ensures state == Idle(now)
      ensures Steps(old(state), Label.Drop(now), state)
    {
      state := Idle(now);
    }

    method ClaimIdleShutdown(now: int, duration: nat) returns (claimed: bool)
      modifies this
      ensures claimed <==> old(state).Idle? && now - old(state).lastFinished >= duration
      ensures state == if claimed then Stopping else old(state)
      ensures Steps(old(state), Label.Claim(now, duration, claimed), state)
    {
      if state.Idle? && now - state.lastFinished >= duration {
        state := Stopping;
        return true;
      }
      return false;
    }
  }

  // ---------------------------------------------------------------- runs

  datatype World = World(state: BrokerState, guards: nat)

  datatype Label = Begin(admitted: bool) | Drop(now: int) | Claim(now: int, duration: nat, claimed: bool)

  predicate Enabled(w: World, l: Label) {
    match l
    case Begin(admitted) => admitted <==> w.state.Idle?
    case Drop(_) => w.guards > 0
    case Claim(now, duration, claimed) => claimed <==> w.state.Idle? && now - w.state.lastFinished >= duration
  }

  function Apply(w: World, l: Label): World
    requires Enabled(w, l)
  {
    match l
    case Begin(admitted) => if admitted then World(Running, w.guards + 1) else w
    case Drop(now) => World(Idle(now), w.guards - 1)
    case Claim(_, _, claimed) => if claimed then w.(state := Stopping) else w
  }

  /** One call is that step of the run system, whatever guards are live. */
  ghost predicate Steps(before: BrokerState, l: Label, after: BrokerState) {
    forall guards: nat {:trigger World(before, guards)} :: (l.Drop? ==> guards > 0) ==>
      Enabled(World(before, guards), l) && Apply(World(before, guards), l).state == after
  }

  ghost predicate IsRun(ws: seq<World>, ls: seq<Label>) {
    && |ws| == |ls| + 1 && ws[0].state.Idle? && ws[0].guards == 0
    && forall i {:trigger ls[i]} :: 0 <= i < |ls| ==> Enabled(ws[i], ls[i]) && ws[i + 1] == Apply(ws[i], ls[i])
  }

  /** The broker is Running exactly while one guard is live, and no second one ever is. */
  lemma {:induction false} RunningIffOneGuard(ws: seq<World>, ls: seq<Label>, n: nat)
    requires IsRun(ws, ls) && n <= |ls|
    ensures ws[n].guards == if ws[n].state == Running then 1 else 0
  {
    if n > 0 {
      RunningIffOneGuard(ws, ls, n - 1);
      assert ws[n] == Apply(ws[n - 1], ls[n - 1]);
    }
  }

  /** A shutdown is claimed only with no guard live; from then on the broker stays Stopping and admits nothing. */
  lemma {:induction false} ClaimIsFinal(ws: seq<World>, ls: seq<Label>, i: nat, n: nat)
    requires IsRun(ws, ls) && i < n <= |ls| && ls[i].Claim? && ls[i].claimed
    ensures ws[i].guards == 0 && ws[n] == World(Stopping, 0)
    ensures n < |ls| ==> !(ls[n].Begin? && ls[n].admitted) && !ls[n].Drop? && !(ls[n].Claim? && ls[n].claimed)
  {
    RunningIffOneGuard(ws, ls, i);
    assert Enabled(ws[i], ls[i]) && ws[i + 1] == Apply(ws[i], ls[i]);
    if i + 1 < n {
      ClaimIsFinal(ws, ls, i, n - 1);
      assert Enabled(ws[n - 1], ls[n - 1]) && ws[n] == Apply(ws[n - 1], ls[n - 1]);
    }
    assert n < |ls| ==> Enabled(ws[n], ls[n]);
  }
}
