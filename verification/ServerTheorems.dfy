/**
 What holds in every interleaving of connection handlers, reloads and shutdown.
 `s` below ranges over the states reachable from a server's start.
 */
module ServerTheorems {
  import opened Prelude
  import opened Addresses
  import opened Peers
  import opened ServerProtocol
  import opened ServerInvariant
  import Limiter

  ghost predicate Reachable(peers: seq<PeerConfig>, run: seq<Step>) {
    Peers.Accepted(peers) && Legal(Initial(peers), run)
  }

  lemma ReachableInv(peers: seq<PeerConfig>, run: seq<Step>)
    requires Reachable(peers, run)
    ensures Inv(After(Initial(peers), run))
  {
    InitialInv(peers);
    RunKeepsInv(Initial(peers), run);
  }

  // --------------------------------------------------------------------
  // Revocation
  // --------------------------------------------------------------------

  predicate BothClosed(h: Handler) {
    !h.peerOpen && !h.backendOpen
  }

  predicate Quiet(s: State) {
    !s.watch.Refreshing? && !s.run.DrainingAll?
  }

  /**
   Whenever no refresh or drain is in progress, a connection past the re-check
   is closed on both sides or registered with the limiter in force at its address.
   */
  lemma PassedAreClosedOrRegistered(peers: seq<PeerConfig>, run: seq<Step>, i: nat)
    requires Reachable(peers, run)
    requires var s := After(Initial(peers), run); Quiet(s) && i < |s.hs| && Passed(s.hs[i])
    ensures var s := After(Initial(peers), run);
            var h := s.hs[i];
            BothClosed(h) || (h.addr in s.inForce && s.inForce[h.addr] == h.lim && h.lim < |s.lims|
              && i in s.lims[h.lim].live)
  {
    ReachableInv(peers, run);
    var s := After(Initial(peers), run);
    assert Shape(s.hs[i]) && Bound(s.hs[i]);
    assert Registered(s, i) || Condemned(s, i);
  }

  predicate PairListed(l: Lim, peers: seq<PeerConfig>) {
    exists p :: p in peers && p.tunnelIP == l.addr && p.publicKey == l.key
  }

  /**
   Once a refresh for the published list has run, every connection past the
   re-check with a side still open belongs to a listed (address, public key).
   */
  lemma OpenConnectionsAreListed(peers: seq<PeerConfig>, run: seq<Step>, i: nat)
    requires Reachable(peers, run)
    requires var s := After(Initial(peers), run);
             Quiet(s) && !s.watch.Stored? && i < |s.hs| && Passed(s.hs[i]) && !BothClosed(s.hs[i])
    ensures var s := After(Initial(peers), run);
            s.hs[i].lim < |s.lims| && PairListed(s.lims[s.hs[i].lim], s.cur)
  {
    PassedAreClosedOrRegistered(peers, run, i);
    ReachableInv(peers, run);
    var s := After(Initial(peers), run);
    var h := s.hs[i];
    assert h.addr in s.inForce.Keys;
    var p :| p in s.cur && p.tunnelIP == h.addr;
    assert s.lims[s.inForce[p.tunnelIP]].key == p.publicKey && s.lims[h.lim].addr == h.addr;
  }

  predicate WatcherActs(a: Step) {
    a.Publish? || a.Swap? || a.ReapLimiter? || a.ReapClose? || a.RefreshDone? || a.ApplyDone? || a.WatcherExit?
      || a.WatcherCancel?
  }

  /** A reload closes a connection only if its limiter's pair has left the list. */
  lemma ReloadSparesListed(peers: seq<PeerConfig>, run: seq<Step>, a: Step, i: nat, side: Side)
    requires Reachable(peers, run)
    requires var s := After(Initial(peers), run);
             WatcherActs(a) && Enabled(s, a) && i < |s.hs| && i < |Next(s, a).hs|
             && IsOpen(s.hs[i], side) && !IsOpen(Next(s, a).hs[i], side)
    ensures var s := After(Initial(peers), run);
            s.hs[i].lim < |s.lims| && !PairListed(s.lims[s.hs[i].lim], s.cur)
  {
    ReachableInv(peers, run);
    var s := After(Initial(peers), run);
    assert a == ReapClose(Close(i, side));
    assert Close(i, side) in s.watch.closing;
  }

  // --------------------------------------------------------------------
  // Accounting
  // --------------------------------------------------------------------

  /** Each limiter's counter is the number of handlers holding one of its slots. */
  lemma SlotsAccounted(peers: seq<PeerConfig>, run: seq<Step>, l: nat)
    requires Reachable(peers, run)
    requires l < |After(Initial(peers), run).lims|
    ensures var s := After(Initial(peers), run);
            && s.lims[l].bucket.active == Count(s.hs, (h: Handler) => h.lim == l && Release in h.defers)
            && s.lims[l].bucket.active <= s.lims[l].peak
            && forall i :: i in s.lims[l].live ==> i < |s.hs| && s.hs[i].lim == l && Release in s.hs[i].defers
  {
    ReachableInv(peers, run);
    var s := After(Initial(peers), run);
    SameCount(s.hs, l);
    forall i | i in s.lims[l].live ensures i < |s.hs| && s.hs[i].lim == l && Release in s.hs[i].defers {
      assert i < |s.hs| && s.hs[i].lim == l && MayBeLive(s.hs[i]);
      assert Shape(s.hs[i]);
      StackPrefix(s.hs[i]);
    }
  }

  lemma {:induction false} SameCount(hs: seq<Handler>, l: nat)
    ensures Count(hs, Holding(l)) == Count(hs, (h: Handler) => h.lim == l && Release in h.defers)
  {
    if hs != [] {
      SameCount(hs[..|hs| - 1], l);
    }
  }

  /** The guard in release never fires: there is always a slot to give back. */
  lemma ReleaseHasASlot(peers: seq<PeerConfig>, run: seq<Step>, i: nat)
    requires Reachable(peers, run)
    requires var s := After(Initial(peers), run);
             i < |s.hs| && ActEnabled(s, i, Unwind) && s.hs[i].defers[|s.hs[i].defers| - 1] == Release
    ensures var s := After(Initial(peers), run);
            s.hs[i].lim < |s.lims| && s.lims[s.hs[i].lim].bucket.active > 0
  {
    ReachableInv(peers, run);
    ReleaseStep(After(Initial(peers), run), i);
  }

  // --------------------------------------------------------------------
  // Progress
  // --------------------------------------------------------------------

  function OpenSides(h: Handler): nat {
    (if h.peerOpen then 1 else 0) + (if h.backendOpen then 1 else 0)
  }

  function Left(c: Copy): nat {
    match c case Copying => 2 case Closing => 1 case Finished => 0
  }

  /** How many of its own steps a handler has left, at most. */
  function Rank(h: Handler): nat {
    match h.pc
    case Fresh => 20
    case Known => 19
    case ReadingHello => 18
    case Resolving(_) => 17
    case Dialing => 16
    case Tracking => 15
    case Rechecking => 14
    case Responding(_) => 13
    case Orphaned => 12
    case Piping(f, t) => 6 + Left(f) + Left(t) + OpenSides(h)
    case Unwinding => |h.defers|
  }

  function Ranks(): Handler -> nat {
    (h: Handler) => Rank(h)
  }

  function Total(s: State): nat {
    Sum(s.hs, Ranks())
  }

  predicate IsPipe(act: Act) {
    act.CopyEnd? || act.CopyClose? || act.CopyReturn? || act.ContextClose? || act.PipeReturn?
  }

  lemma LimiterRank(s: State, i: nat, act: Act)
    requires i < |s.hs| && ActEnabled(s, i, act) && (act.Acquire? || act.Track? || act.DropOrphan?)
    requires Shape(s.hs[i])
    ensures var s' := ActNext(s, i, act); i < |s'.hs| && Rank(s'.hs[i]) < Rank(s.hs[i]) && s'.hs == s.hs[i := s'.hs[i]]
  {
    hide Limiter.TryAcquire;
  }

  lemma SetupRank(s: State, i: nat, act: Act)
    requires i < |s.hs| && ActEnabled(s, i, act) && !IsPipe(act) && !act.Unwind?
               && !(act.Acquire? || act.Track? || act.DropOrphan?)
    requires Shape(s.hs[i])
    ensures var s' := ActNext(s, i, act); i < |s'.hs| && Rank(s'.hs[i]) < Rank(s.hs[i]) && s'.hs == s.hs[i := s'.hs[i]]
  {
    var h := s.hs[i];
    assert |h.defers| <= 5;
    hide Grants, Limiter.TryAcquire, Limiter.GiveBack, UnwindOne, Shape;
    match act
    case NoAddress =>
    case Lookup =>
    case Dial(_) =>
    case Recheck =>
    case _ =>
  }

  lemma PipeRank(s: State, i: nat, act: Act)
    requires i < |s.hs| && ActEnabled(s, i, act) && IsPipe(act) && |s.hs[i].defers| <= 5
    ensures var s' := ActNext(s, i, act); i < |s'.hs| && Rank(s'.hs[i]) < Rank(s.hs[i]) && s'.hs == s.hs[i := s'.hs[i]]
  {
    hide Grants, Limiter.TryAcquire, Limiter.GiveBack, UnwindOne;
  }

  lemma UnwindRank(s: State, i: nat)
    requires i < |s.hs| && Shape(s.hs[i]) && ActEnabled(s, i, Unwind)
    ensures var s' := ActNext(s, i, Unwind);
              i < |s'.hs| && Rank(s'.hs[i]) < Rank(s.hs[i]) && s'.hs == s.hs[i := s'.hs[i]]
  {
    Pop(s.hs[i]);
  }

  /** Every handler step strictly decreases the measure. */
  lemma HandlerStepsDecrease(s: State, i: nat, act: Act)
    requires Inv(s) && Enabled(s, Handle(i, act))
    ensures Total(Next(s, Handle(i, act))) < Total(s)
  {
    assert Shape(s.hs[i]);
    hide Inv, Rank, ActNext;
    if IsPipe(act) {
      PipeRank(s, i, act);
    } else if act.Unwind? {
      UnwindRank(s, i);
    } else if act.Acquire? || act.Track? || act.DropOrphan? {
      LimiterRank(s, i, act);
    } else {
      SetupRank(s, i, act);
    }
    SumUpdate(s.hs, i, ActNext(s, i, act).hs[i], Ranks());
  }

  /** And no other step raises it, except accepting another connection. */
  lemma OtherStepsDoNotRaise(s: State, a: Step)
    requires Inv(s) && Enabled(s, a) && !a.Handle? && !a.Accept?
    ensures Total(Next(s, a)) <= Total(s)
  {
    hide Inv, SwapAllowed, RelimitedAll, BothSides, ActEnabled, ActNext;
    assert Next(s, a).hs == if a.DrainClose? || a.ReapClose? then s.hs[a.c.h := Shut(s.hs[a.c.h], a.c.side)] else s.hs;
    hide Next;
    if a.DrainClose? || a.ReapClose? {
      SumUpdate(s.hs, a.c.h, Shut(s.hs[a.c.h], a.c.side), Ranks());
    }
  }

  function HandlerSteps(run: seq<Step>): nat {
    if run == [] then 0 else (if run[0].Handle? then 1 else 0) + HandlerSteps(run[1..])
  }

  /** Run has left its accept loop. */
  predicate Stopped(s: State) {
    !s.run.Serving? && !s.run.Starting?
  }

  lemma HandlersLeaveRun(s: State, i: nat, act: Act)
    requires i < |s.hs| && ActEnabled(s, i, act)
    ensures ActNext(s, i, act).run == s.run
  {
    hide Grants, Limiter.TryAcquire, Limiter.GiveBack;
  }

  lemma StaysStopped(s: State, a: Step)
    requires Enabled(s, a) && Stopped(s)
    ensures Stopped(Next(s, a)) && !a.Accept?
  {
    if a.Handle? {
      HandlersLeaveRun(s, a.i, a.act);
    }
    hide RelimitedAll, SwapAllowed, BothSides, ActEnabled, ActNext;
  }

  lemma {:induction false} StepsRunOut(s: State, run: seq<Step>)
    requires Inv(s) && Legal(s, run) && Stopped(s)
    ensures HandlerSteps(run) <= Total(s)
    decreases run
  {
    hide Inv, Total, Next, Enabled, Stopped;
    if run != [] {
      var a := run[0];
      StepKeepsInv(s, a);
      StaysStopped(s, a);
      if a.Handle? {
        HandlerStepsDecrease(s, a.i, a.act);
      } else {
        OtherStepsDoNotRaise(s, a);
      }
      StepsRunOut(Next(s, a), run[1..]);
    }
  }

  /**
   However a run continues after Run has stopped accepting, the handlers take no more
   steps than the measure allows.
   */
  lemma HandlersFinish(peers: seq<PeerConfig>, run: seq<Step>, more: seq<Step>)
    requires Reachable(peers, run) && Stopped(After(Initial(peers), run)) && Legal(After(Initial(peers), run), more)
    ensures HandlerSteps(more) <= Total(After(Initial(peers), run))
  {
    ReachableInv(peers, run);
    StepsRunOut(After(Initial(peers), run), more);
  }

  function Source(dir: Direction): Side {
    if dir.FromPeer? then PeerSide else BackendSide
  }

  /** A step that waits for nothing but deadlines, the context and closed connections. */
  predicate Autonomous(s: State, i: nat, act: Act)
    requires i < |s.hs|
  {
    && ActEnabled(s, i, act)
    && match act
       case Hello(r) => r.NoHello?
       case Dial(connected) => !connected && s.cancelled
       case Respond(written) => !written
       case CopyEnd(dir) => !IsOpen(s.hs[i], Source(dir))
       case _ => true
  }

  function PipeAct(s: State, h: Handler): Act
    requires h.pc.Piping?
  {
    if s.cancelled && h.peerOpen then ContextClose(PeerSide)
    else if s.cancelled && h.backendOpen then ContextClose(BackendSide)
    else if h.pc.fromPeer.Finished? && h.pc.toPeer.Finished? then PipeReturn
    else if (h.pc.fromPeer.Closing? || h.pc.toPeer.Closing?) && h.peerOpen then CopyClose(PeerSide)
    else if (h.pc.fromPeer.Closing? || h.pc.toPeer.Closing?) && h.backendOpen then CopyClose(BackendSide)
    else if h.pc.fromPeer.Closing? then CopyReturn(FromPeer)
    else if h.pc.toPeer.Closing? then CopyReturn(ToPeer)
    else if h.pc.fromPeer.Copying? && !h.peerOpen then CopyEnd(FromPeer)
    else CopyEnd(ToPeer)
  }

  /** What an unfinished handler can always do next once the context is cancelled. */
  function NextAct(s: State, h: Handler): Act {
    match h.pc
    case Fresh => Lookup
    case Known => Acquire(0.0)
    case ReadingHello => Hello(NoHello)
    case Resolving(_) => ResolveService
    case Dialing => Dial(false)
    case Tracking => Track
    case Rechecking => Recheck
    case Orphaned => DropOrphan
    case Responding(_) => Respond(false)
    case Piping(_, _) => PipeAct(s, h)
    case Unwinding => Unwind
  }

  /** After cancellation no unfinished handler is stuck, whenever it registered. */
  lemma NoHandlerStuck(peers: seq<PeerConfig>, run: seq<Step>, i: nat)
    requires Reachable(peers, run)
    requires var s := After(Initial(peers), run); s.cancelled && i < |s.hs| && s.hs[i].defers != []
    ensures exists act :: Autonomous(After(Initial(peers), run), i, act)
  {
    ReachableInv(peers, run);
    var s := After(Initial(peers), run);
    var h := s.hs[i];
    assert Shape(h);
    if h.pc.Unwinding? {
      Pop(h);
    }
    assert Autonomous(s, i, NextAct(s, h));
  }

  /** Exactly when a proxied connection waits on the network: nothing cancelled, closed or ended. */
  lemma PipeWaitsExactly(peers: seq<PeerConfig>, run: seq<Step>, i: nat)
    requires Reachable(peers, run)
    requires var s := After(Initial(peers), run); i < |s.hs| && s.hs[i].pc.Piping?
    ensures var s := After(Initial(peers), run);
            var h := s.hs[i];
            (exists act :: Autonomous(s, i, act)) <==>
            !(!s.cancelled && h.peerOpen && h.backendOpen && h.pc == Piping(Copying, Copying))
  {
    ReachableInv(peers, run);
    var s := After(Initial(peers), run);
    var h := s.hs[i];
    assert Shape(h);
    if s.cancelled || !h.peerOpen || !h.backendOpen || h.pc != Piping(Copying, Copying) {
      assert Autonomous(s, i, PipeAct(s, h));
    }
  }

  // --------------------------------------------------------------------
  // Shutdown order
  // --------------------------------------------------------------------

  lemma {:induction false} AllFinished(hs: seq<Handler>)
    requires Count(hs, StillRunning()) == 0
    ensures forall i :: 0 <= i < |hs| ==> hs[i].defers == []
  {
    forall i | 0 <= i < |hs| ensures hs[i].defers == [] {
      if hs[i].defers != [] {
        CountPositive(hs, i, StillRunning());
      }
    }
  }

  /** Outside the timeout branch the device closes only after every handler returned, connections closed. */
  lemma DeviceClosesLast(peers: seq<PeerConfig>, run: seq<Step>)
    requires Reachable(peers, run)
    requires var s := After(Initial(peers), run); !s.deviceOpen && !s.timedOut
    ensures var s := After(Initial(peers), run);
            s.wg == 0 && forall i :: 0 <= i < |s.hs| ==> s.hs[i].defers == [] && BothClosed(s.hs[i])
  {
    ReachableInv(peers, run);
    var s := After(Initial(peers), run);
    AllFinished(s.hs);
    assert forall i :: 0 <= i < |s.hs| ==> Shape(s.hs[i]);
  }

  lemma RunPrefix(d: seq<RunDefer>)
    requires d <= RUN_STACK
    ensures AwaitWatcher in d <==> |d| >= 4
  {
    assert d == RUN_STACK[..|d|];
    if |d| >= 4 {
      assert d[3] == AwaitWatcher;
    }
  }

  /** Once the watcher has been waited for, no reload step is possible and nothing is accepted. */
  lemma NoReloadDuringDrain(peers: seq<PeerConfig>, run: seq<Step>, a: Step)
    requires Reachable(peers, run)
    requires var s := After(Initial(peers), run);
             (s.run.DrainingAll? || (s.run.Returning? && AwaitWatcher !in s.run.defers)) && Enabled(s, a)
    ensures !a.Publish? && !a.Swap? && !a.ReapLimiter? && !a.ReapClose? && !a.RefreshDone? && !a.ApplyDone?
              && !a.Accept?
  {
    ReachableInv(peers, run);
    var s := After(Initial(peers), run);
    if s.run.Returning? {
      RunPrefix(s.run.defers);
    }
  }
}
