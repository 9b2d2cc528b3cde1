/**
 What draining at shutdown does for the connections registered when it begins.
 */
module DrainTheorems {
  import opened Prelude
  import opened Addresses
  import opened Peers
  import opened ServerProtocol
  import opened ServerInvariant
  import opened ServerTheorems
  import opened HandlerFrames
  import Limiter

  /** Closed on a side, or about to be by the drain. */
  predicate Closing(s: State, i: nat, side: Side)
    requires i < |s.hs|
  {
    IsOpen(s.hs[i], side) ==> s.run.DrainingAll? && Close(i, side) in s.run.closing
  }

  /** The limiter is still to be drained. */
  predicate Due(s: State, l: nat) {
    if s.run.DrainingAll? then l in s.run.todo else l in s.inForce.Values && DefersLeft(s) == 3
  }

  /** The connection is unwinding, closed or being closed, or registered with a limiter to be drained. */
  predicate Owed(s: State, l: nat, i: nat) {
    && l < |s.lims| && i < |s.hs| && Late(s.hs[i].pc)
    && (s.hs[i].pc.Unwinding? || (Closing(s, i, PeerSide) && Closing(s, i, BackendSide))
        || (i in s.lims[l].live && Due(s, l)))
  }

  /** Run is at its drain or past it. */
  predicate Ending(s: State) {
    s.watch.Exited? && (s.run.Returning? || s.run.DrainingAll?) && DefersLeft(s) <= 3
  }

  lemma HandlerOwed(s: State, j: nat, act: Act, l: nat, i: nat)
    requires j < |s.hs| && ActEnabled(s, j, act) && Ending(s) && Owed(s, l, i)
    ensures Ending(ActNext(s, j, act)) && Owed(ActNext(s, j, act), l, i)
  {
    if j == i {
      LateActs(s, i, act);
    } else {
      OtherActs(s, j, act);
    }
    hide ActNext, ActEnabled, Late;
  }

  lemma DrainOwed(s: State, a: Step, l: nat, i: nat)
    requires Enabled(s, a) && Ending(s) && Owed(s, l, i)
    requires a.DrainLimiter? || a.DrainClose? || a.DrainDone? || a.DrainTimeout?
    ensures Ending(Next(s, a)) && Owed(Next(s, a), l, i)
  {
    hide Late;
    if a.DrainLimiter? && a.l == l && i in s.lims[l].live {
      assert Close(i, PeerSide) in BothSides(s.lims[l].live) && Close(i, BackendSide) in BothSides(s.lims[l].live);
    }
  }

  lemma RunOwed(s: State, l: nat, i: nat)
    requires Ordered(s) && Enabled(s, RunDeferred) && Ending(s) && Owed(s, l, i)
    ensures Ending(Next(s, RunDeferred)) && Owed(Next(s, RunDeferred), l, i)
  {
    var d := s.run.defers;
    assert d == RUN_STACK[..|d|];
    hide Late, Ordered;
  }

  lemma StepOwed(s: State, a: Step, l: nat, i: nat)
    requires Ordered(s) && Enabled(s, a) && Ending(s) && Owed(s, l, i)
    ensures Ending(Next(s, a)) && Owed(Next(s, a), l, i)
  {
    if a.Handle? {
      HandlerOwed(s, a.i, a.act, l, i);
      hide ActNext, ActEnabled, Owed, Ending, Ordered;
    } else if a.RunDeferred? {
      RunOwed(s, l, i);
    } else if a.DrainLimiter? || a.DrainClose? || a.DrainDone? || a.DrainTimeout? {
      DrainOwed(s, a, l, i);
    } else {
      assert a.Cancel? || a.WatcherCancel?;
      hide Late, Ordered;
    }
  }

  lemma {:induction false} RunsOwed(s: State, run: seq<Step>, l: nat, i: nat)
    requires Inv(s) && Legal(s, run) && Ending(s) && Owed(s, l, i)
    ensures Owed(After(s, run), l, i)
    decreases run
  {
    if run != [] {
      assert Ordered(s);
      StepKeepsInv(s, run[0]);
      StepOwed(s, run[0], l, i);
      hide Inv, Owed, Ending, Next, Enabled, Ordered;
      RunsOwed(Next(s, run[0]), run[1..], l, i);
    }
  }

  /**
   A connection registered with a limiter in force when the drain begins is, once the
   drain is over, closed on both sides or in its own deferred calls, however it ended.
   */
  lemma DrainClosesRegistered(peers: seq<PeerConfig>, run: seq<Step>, more: seq<Step>, l: nat, i: nat)
    requires Reachable(peers, run)
    requires var s := After(Initial(peers), run);
             && s.run.Returning? && s.run.defers != [] && s.run.defers[|s.run.defers| - 1].Drain?
             && l in s.inForce.Values && l < |s.lims| && i in s.lims[l].live
             && Legal(s, more)
    requires var t := After(After(Initial(peers), run), more); t.run.Returning? && |t.run.defers| < 3
    ensures var t := After(After(Initial(peers), run), more);
            i < |t.hs| && (BothClosed(t.hs[i]) || t.hs[i].pc.Unwinding?)
  {
    ReachableInv(peers, run);
    var s := After(Initial(peers), run);
    var d := s.run.defers;
    assert d == RUN_STACK[..|d|] && |d| == 3;
    assert i < |s.hs| && MayBeLive(s.hs[i]) && Shape(s.hs[i]);
    RunsOwed(s, more, l, i);
  }
}
