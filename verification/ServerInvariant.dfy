/**
 The invariant of the serving path and its preservation by every step.
 */
module ServerInvariant {
  import opened Prelude
  import opened Addresses
  import opened Peers
  import opened ServerProtocol
  import Limiter

  // --------------------------------------------------------------------
  // One handler
  // --------------------------------------------------------------------

  /** Which deferred calls are registered at each point of handleConn. */
  predicate Depth(pc: Pc, n: nat) {
    match pc
    case Fresh | Known => n == 2
    case ReadingHello | Resolving(_) | Dialing => n == 3
    case Tracking | Rechecking | Orphaned => n == 4
    case Responding(ok) => if ok then n == 5 else n == 2 || n == 3
    case Piping(_, _) => n == 5
    case Unwinding => n <= 5
  }

  predicate Shape(h: Handler) {
    && h.defers <= STACK && Depth(h.pc, |h.defers|)
    && (h.peerOpen ==> |h.defers| >= 2) && (h.backendOpen ==> |h.defers| >= 4)
    && (h.pc.Piping? && (h.pc.fromPeer.Finished? || h.pc.toPeer.Finished?) ==> !h.peerOpen && !h.backendOpen)
  }

  /** The handler refers to a limiter. */
  predicate Bound(h: Handler) {
    h.pc.Known? || |h.defers| >= 3
  }

  /** Between a successful acquire and its release. */
  predicate HasSlot(h: Handler) {
    Release in h.defers
  }

  predicate Unfinished(h: Handler) {
    h.defers != []
  }

  /** Points at which a registration may still be in the live set. */
  predicate MayBeLive(h: Handler) {
    h.pc.Rechecking? || h.pc.Orphaned? || |h.defers| == 5
  }

  /** Passed the re-check and not begun unwinding. */
  predicate Passed(h: Handler) {
    h.pc == Responding(true) || h.pc.Piping?
  }

  predicate Exposed(h: Handler) {
    h.pc.Rechecking? || Passed(h)
  }

  function Holding(l: nat): Handler -> bool {
    (h: Handler) => h.lim == l && HasSlot(h)
  }

  function StillRunning(): Handler -> bool {
    (h: Handler) => Unfinished(h)
  }

  // --------------------------------------------------------------------
  // The whole state
  // --------------------------------------------------------------------

  predicate Pending(s: State, c: Close) {
    (s.watch.Refreshing? && c in s.watch.closing) || (s.run.DrainingAll? && c in s.run.closing)
  }

  function Gone(s: State): set<nat> {
    if s.watch.Refreshing? then s.watch.gone else {}
  }

  /** Closed, or drained from a live set with the close still to be made. */
  predicate Condemned(s: State, i: nat)
    requires i < |s.hs|
  {
    && (!s.hs[i].peerOpen || Pending(s, Close(i, PeerSide)))
    && (!s.hs[i].backendOpen || Pending(s, Close(i, BackendSide)))
  }

  predicate Registered(s: State, i: nat)
    requires i < |s.hs|
  {
    s.hs[i].lim < |s.lims| && i in s.lims[s.hs[i].lim].live
  }

  predicate InForce(s: State, l: nat) {
    l < |s.lims| && s.lims[l].addr in s.inForce && s.inForce[s.lims[l].addr] == l
  }

  ghost predicate Absent(l: Lim, peers: seq<PeerConfig>) {
    forall p :: p in peers ==> !(p.tunnelIP == l.addr && p.publicKey == l.key)
  }

  ghost predicate Shapes(s: State) {
    forall i :: 0 <= i < |s.hs| ==>
      Shape(s.hs[i]) && (Bound(s.hs[i]) ==> s.hs[i].lim < |s.lims| && s.lims[s.hs[i].lim].addr == s.hs[i].addr)
  }

  ghost predicate Slots(s: State) {
    forall l :: 0 <= l < |s.lims| ==>
      && s.lims[l].bucket.active == Count(s.hs, Holding(l))
      && s.lims[l].bucket.active <= s.lims[l].peak && s.lims[l].bucket.maxConcurrent <= s.lims[l].peak
  }

  ghost predicate LiveSets(s: State) {
    forall l, i {:trigger i in s.lims[l].live} :: 0 <= l < |s.lims| && i in s.lims[l].live ==>
      i < |s.hs| && s.hs[i].lim == l && MayBeLive(s.hs[i])
  }

  ghost predicate Covered(s: State) {
    forall i :: 0 <= i < |s.hs| && Exposed(s.hs[i]) ==> Registered(s, i) || Condemned(s, i)
  }

  ghost predicate PassedInForce(s: State) {
    forall i :: 0 <= i < |s.hs| && Passed(s.hs[i]) && Registered(s, i) ==>
      InForce(s, s.hs[i].lim) || s.hs[i].lim in Gone(s)
  }

  /** The limiter map indexes its limiters, and outside a swap matches the list. */
  ghost predicate MapsMatch(s: State) {
    && (forall a :: a in s.inForce ==> s.inForce[a] < |s.lims| && s.lims[s.inForce[a]].addr == a)
    && Peers.Accepted(s.cur)
    && (!s.watch.Stored? ==> s.inForce.Keys == set p | p in s.cur :: p.tunnelIP)
    && (!s.watch.Stored? ==> forall p :: p in s.cur ==> s.lims[s.inForce[p.tunnelIP]].key == p.publicKey)
  }

  /** What a refresh is reaping has left the list. */
  ghost predicate ReapsDeparted(s: State) {
    s.watch.Refreshing? ==>
      && (forall l :: l in s.watch.gone ==> l < |s.lims| && Absent(s.lims[l], s.cur))
      && (forall c :: c in s.watch.closing ==>
            c.h < |s.hs| && !s.hs[c.h].pc.Fresh? && s.hs[c.h].lim < |s.lims| && Absent(s.lims[s.hs[c.h].lim], s.cur))
  }

  /** Run's deferred calls, and what each one that has run guarantees. */
  ghost predicate Ordered(s: State) {
    && (s.run.Returning? ==> s.run.defers <= RUN_STACK)
    && (s.run.DrainingAll? ==> s.run.defers == RUN_STACK[..2] && forall c :: c in s.run.closing ==> c.h < |s.hs|)
    && (DefersLeft(s) <= 4 ==> s.cancelled)
    && (DefersLeft(s) <= 3 ==> s.watch.Exited?)
    && (DefersLeft(s) <= 2 && !s.run.DrainingAll? && !s.timedOut ==> s.wg == 0)
    && (s.deviceOpen <==> DefersLeft(s) >= 2)
    && (s.run.Starting? ==> s.hs == [])
  }

  function DefersLeft(s: State): nat {
    match s.run
    case Starting | Serving => 5
    case Returning(d) => |d|
    case DrainingAll(d, _, _) => |d|
  }

  /** The wait group counts the handlers that have not returned. */
  predicate Counted(s: State) {
    s.wg == Count(s.hs, StillRunning())
  }

  ghost predicate Rest(s: State) {
    Shapes(s) && LiveSets(s) && Covered(s) && PassedInForce(s) && MapsMatch(s) && ReapsDeparted(s) && Ordered(s)
  }

  ghost predicate Inv(s: State) {
    Slots(s) && Counted(s) && Rest(s)
  }

  lemma InitialInv(peers: seq<PeerConfig>)
    requires Peers.Accepted(peers)
    ensures Inv(Initial(peers))
  {
  }

  // --------------------------------------------------------------------
  // A handler moving on its own
  // --------------------------------------------------------------------

  lemma StackPrefix(h: Handler)
    requires h.defers <= STACK
    ensures HasSlot(h) <==> |h.defers| >= 3
    ensures Unfinished(h) <==> |h.defers| >= 1
  {
    assert h.defers == STACK[..|h.defers|];
    if |h.defers| >= 3 {
      assert h.defers[2] == Release;
    }
  }

  /** What a handler may do to itself. */
  ghost predicate SoundMove(s: State, i: nat, h': Handler)
    requires i < |s.hs|
  {
    var h := s.hs[i];
    && Shape(h') && h'.addr == h.addr
    && (Bound(h') ==> h'.lim < |s.lims| && s.lims[h'.lim].addr == h'.addr)
    && (!h.pc.Fresh? ==> h'.lim == h.lim && !h'.pc.Fresh?)
    && (MayBeLive(h) ==> MayBeLive(h') || !Registered(s, i))
    && (Exposed(h') ==> Exposed(h) && (h'.peerOpen ==> h.peerOpen) && (h'.backendOpen ==> h.backendOpen))
    && (Passed(h') ==> Passed(h) || InForce(s, h.lim))
  }

  /** And without taking or returning a slot, or returning from handleConn. */
  ghost predicate LocalMove(s: State, i: nat, h': Handler)
    requires i < |s.hs|
  {
    var h := s.hs[i];
    SoundMove(s, i, h') && (|h'.defers| >= 3 <==> |h.defers| >= 3) && (h'.defers == [] <==> h.defers == [])
  }

  lemma MoveCounts(s: State, i: nat, h': Handler)
    requires Shapes(s) && Slots(s) && Counted(s) && i < |s.hs| && LocalMove(s, i, h')
    ensures Slots(With(s, i, h')) && Counted(With(s, i, h'))
  {
    StackPrefix(s.hs[i]);
    StackPrefix(h');
    forall l | 0 <= l < |s.lims| ensures Count(s.hs[i := h'], Holding(l)) == Count(s.hs, Holding(l)) {
      CountUpdate(s.hs, i, h', Holding(l));
    }
    CountUpdate(s.hs, i, h', StillRunning());
  }

  lemma MoveLive(s: State, i: nat, h': Handler)
    requires Shapes(s) && LiveSets(s) && i < |s.hs| && SoundMove(s, i, h')
    ensures LiveSets(With(s, i, h'))
  {
    var s' := With(s, i, h');
    forall l, j | 0 <= l < |s'.lims| && j in s'.lims[l].live
      ensures j < |s'.hs| && s'.hs[j].lim == l && MayBeLive(s'.hs[j])
    {
      assert j in s.lims[l].live;
      assert j < |s.hs| && s.hs[j].lim == l && MayBeLive(s.hs[j]);
      if j == i {
        assert Shape(s.hs[i]) && Registered(s, i);
      }
    }
  }

  lemma MoveCovered(s: State, i: nat, h': Handler)
    requires Covered(s) && i < |s.hs| && SoundMove(s, i, h')
    ensures Covered(With(s, i, h'))
  {
    var s' := With(s, i, h');
    forall j | 0 <= j < |s.hs| && Exposed(s'.hs[j]) ensures Registered(s', j) || Condemned(s', j) {
      assert Registered(s, j) || Condemned(s, j);
    }
  }

  lemma MovePassed(s: State, i: nat, h': Handler)
    requires PassedInForce(s) && i < |s.hs| && SoundMove(s, i, h')
    ensures PassedInForce(With(s, i, h'))
  {
    var s' := With(s, i, h');
    forall j | 0 <= j < |s.hs| && Passed(s'.hs[j]) && Registered(s', j)
      ensures InForce(s', s'.hs[j].lim) || s'.hs[j].lim in Gone(s')
    {
      if j != i || Passed(s.hs[i]) {
        assert InForce(s, s.hs[j].lim) || s.hs[j].lim in Gone(s);
      }
    }
  }

  lemma MoveRest(s: State, i: nat, h': Handler)
    requires Rest(s) && i < |s.hs| && SoundMove(s, i, h')
    ensures Rest(With(s, i, h'))
  {
    MoveLive(s, i, h');
    MoveCovered(s, i, h');
    MovePassed(s, i, h');
    hide LiveSets, Covered, PassedInForce;
  }

  lemma Move(s: State, i: nat, h': Handler)
    requires Inv(s) && i < |s.hs| && LocalMove(s, i, h')
    ensures Inv(With(s, i, h'))
  {
    MoveCounts(s, i, h');
    MoveRest(s, i, h');
  }

  // --------------------------------------------------------------------
  // Handler steps
  // --------------------------------------------------------------------

  /** Steps that touch no limiter and not the wait group. */
  predicate IsLocal(h: Handler, act: Act) {
    match act
    case Acquire(_) | Track | DropOrphan => false
    case Unwind => h.defers != [] && h.defers[|h.defers| - 1] in {ClosePeer, CloseBackend}
    case _ => true
  }

  lemma Push(h: Handler)
    requires h.defers <= STACK && |h.defers| < 5
    ensures h.defers + [STACK[|h.defers|]] <= STACK
  {
    assert h.defers == STACK[..|h.defers|];
  }

  lemma Pop(h: Handler)
    requires h.defers <= STACK && h.defers != []
    ensures h.defers[..|h.defers| - 1] <= STACK && h.defers[|h.defers| - 1] == STACK[|h.defers| - 1]
  {
    assert h.defers == STACK[..|h.defers|];
  }

  lemma IdentityMoves(s: State, i: nat, act: Act)
    requires Shapes(s) && MapsMatch(s) && i < |s.hs| && ActEnabled(s, i, act)
    requires act.NoAddress? || act.Lookup?
    ensures LocalMove(s, i, ActNext(s, i, act).hs[i])
  {
    assert Shape(s.hs[i]);
  }

  lemma HelloMoves(s: State, i: nat, act: Act)
    requires Shapes(s) && i < |s.hs| && ActEnabled(s, i, act)
    requires act.Hello? || act.ResolveService? || act.Respond?
    ensures LocalMove(s, i, ActNext(s, i, act).hs[i])
  {
    hide Grants, Limiter.TryAcquire, Limiter.GiveBack, UnwindOne;
    assert Shape(s.hs[i]);
  }

  lemma DialMoves(s: State, i: nat, act: Act)
    requires Shapes(s) && i < |s.hs| && ActEnabled(s, i, act)
    requires act.Dial? || act.Recheck?
    ensures LocalMove(s, i, ActNext(s, i, act).hs[i])
  {
    hide Grants, Limiter.TryAcquire, Limiter.GiveBack, UnwindOne;
    assert Shape(s.hs[i]);
    Push(s.hs[i]);
  }

  lemma PipeMoves(s: State, i: nat, act: Act)
    requires Shapes(s) && i < |s.hs| && ActEnabled(s, i, act)
    requires act.CopyEnd? || act.CopyClose? || act.CopyReturn? || act.ContextClose? || act.PipeReturn?
    ensures LocalMove(s, i, ActNext(s, i, act).hs[i])
  {
    assert Shape(s.hs[i]);
  }

  lemma UnwindMoves(s: State, i: nat)
    requires Shapes(s) && i < |s.hs| && ActEnabled(s, i, Unwind) && IsLocal(s.hs[i], Unwind)
    ensures LocalMove(s, i, ActNext(s, i, Unwind).hs[i])
  {
    assert Shape(s.hs[i]);
    Pop(s.hs[i]);
  }

  lemma LocalMoves(s: State, i: nat, act: Act)
    requires Shapes(s) && MapsMatch(s) && i < |s.hs| && ActEnabled(s, i, act) && IsLocal(s.hs[i], act)
    ensures var s' := ActNext(s, i, act); i < |s'.hs| && s' == With(s, i, s'.hs[i]) && LocalMove(s, i, s'.hs[i])
  {
    hide LocalMove, Shapes, MapsMatch, Grants;
    match act
    case NoAddress | Lookup => IdentityMoves(s, i, act);
    case Hello(_) | ResolveService | Respond(_) => HelloMoves(s, i, act);
    case Dial(_) | Recheck => DialMoves(s, i, act);
    case CopyEnd(_) | CopyClose(_) | CopyReturn(_) | ContextClose(_) | PipeReturn => PipeMoves(s, i, act);
    case Unwind => UnwindMoves(s, i);
  }

  lemma LocalSteps(s: State, i: nat, act: Act)
    requires Inv(s) && i < |s.hs| && ActEnabled(s, i, act) && IsLocal(s.hs[i], act)
    ensures Inv(ActNext(s, i, act))
  {
    LocalMoves(s, i, act);
    hide *;
    Move(s, i, ActNext(s, i, act).hs[i]);
  }

  // Steps that touch a limiter or the wait group ----------------------

  /** The rest of the invariant never looks inside a bucket. */
  lemma BucketMaps(s: State, l: nat, bucket: Limiter.Bucket)
    requires Shapes(s) && MapsMatch(s) && ReapsDeparted(s) && Ordered(s) && l < |s.lims|
    ensures var s' := WithLim(s, l, s.lims[l].(bucket := bucket));
              Shapes(s') && MapsMatch(s') && ReapsDeparted(s') && Ordered(s')
  {
  }

  lemma BucketRest(s: State, l: nat, bucket: Limiter.Bucket)
    requires Rest(s) && l < |s.lims|
    ensures Rest(WithLim(s, l, s.lims[l].(bucket := bucket)))
  {
    var s' := WithLim(s, l, s.lims[l].(bucket := bucket));
    BucketMaps(s, l, bucket);
    hide Shapes, MapsMatch, ReapsDeparted, Ordered;
    assert forall k :: 0 <= k < |s.lims| ==> s'.lims[k].live == s.lims[k].live && s'.lims[k].addr == s.lims[k].addr;
    assert forall i :: 0 <= i < |s.hs| ==> Registered(s', i) == Registered(s, i) && Condemned(s', i) == Condemned(s, i);
    assert forall k :: InForce(s', k) == InForce(s, k);
  }

  /** A slot taken or returned on `l` is one more or one fewer handler holding it. */
  lemma SlotChange(s: State, i: nat, h': Handler, l: nat, bucket: Limiter.Bucket)
    requires Shapes(s) && Slots(s) && i < |s.hs| && l < |s.lims| && s.hs[i].lim == h'.lim == l && Shape(h')
    requires bucket.active - s.lims[l].bucket.active ==
               (if |h'.defers| >= 3 then 1 else 0) - (if |s.hs[i].defers| >= 3 then 1 else 0)
    requires bucket.active <= s.lims[l].peak && bucket.maxConcurrent == s.lims[l].bucket.maxConcurrent
    ensures Slots(WithLim(With(s, i, h'), l, s.lims[l].(bucket := bucket)))
  {
    StackPrefix(s.hs[i]);
    StackPrefix(h');
    forall k | 0 <= k < |s.lims|
      ensures Count(s.hs[i := h'], Holding(k)) ==
                Count(s.hs, Holding(k)) + (if k == l then bucket.active - s.lims[l].bucket.active else 0)
    {
      CountUpdate(s.hs, i, h', Holding(k));
    }
  }

  lemma AcquireMove(s: State, i: nat, now: real)
    requires Shapes(s) && i < |s.hs| && ActEnabled(s, i, Acquire(now))
    ensures var h' := ActNext(s, i, Acquire(now)).hs[i];
            SoundMove(s, i, h') && |h'.defers| ==
              if Limiter.TryAcquire(s.lims[s.hs[i].lim].bucket, now).1.Admitted? then 3 else 2
  {
    hide Limiter.TryAcquire;
    assert Shape(s.hs[i]);
    Push(s.hs[i]);
  }

  lemma AcquireStep(s: State, i: nat, now: real)
    requires Inv(s) && i < |s.hs| && ActEnabled(s, i, Acquire(now))
    ensures Inv(ActNext(s, i, Acquire(now)))
  {
    var h := s.hs[i];
    var h' := ActNext(s, i, Acquire(now)).hs[i];
    var bucket := Limiter.TryAcquire(s.lims[h.lim].bucket, now).0;
    var s1 := With(s, i, h');
    Limiter.AcquireSlots(s.lims[h.lim].bucket, now);
    AcquireMove(s, i, now);
    assert Shape(h) && |h.defers| == 2 && Shapes(s) && Shape(h') && h'.lim == h.lim;
    assert ActNext(s, i, Acquire(now)) == WithLim(s1, h.lim, s.lims[h.lim].(bucket := bucket));
    hide Limiter.TryAcquire, ActNext, Rest, SoundMove;
    StackPrefix(h);
    StackPrefix(h');
    CountUpdate(s.hs, i, h', StillRunning());
    SlotChange(s, i, h', h.lim, bucket);
    MoveRest(s, i, h');
    BucketRest(s1, h.lim, bucket);
  }

  lemma ReleaseMove(s: State, i: nat)
    requires i < |s.hs| && Shape(s.hs[i]) && ActEnabled(s, i, Unwind) && s.hs[i].defers[|s.hs[i].defers| - 1] == Release
    ensures var s', h := ActNext(s, i, Unwind), s.hs[i];
            && i < |s'.hs| && h.lim < |s.lims| && |h.defers| == 3 && |s'.hs[i].defers| == 2
            && s'.hs[i].lim == h.lim && Shape(s'.hs[i]) && SoundMove(s, i, s'.hs[i])
            && s' == WithLim(With(s, i, s'.hs[i]), h.lim,
                 s.lims[h.lim].(bucket := Limiter.GiveBack(s.lims[h.lim].bucket)))
  {
    hide Grants, Limiter.TryAcquire, Limiter.GiveBack;
    Pop(s.hs[i]);
    StackPrefix(s.hs[i]);
  }

  lemma ReleaseStep(s: State, i: nat)
    requires Inv(s) && i < |s.hs| && ActEnabled(s, i, Unwind) && s.hs[i].defers[|s.hs[i].defers| - 1] == Release
    ensures Inv(ActNext(s, i, Unwind))
    ensures s.lims[s.hs[i].lim].bucket.active > 0
  {
    var h := s.hs[i];
    var s' := ActNext(s, i, Unwind);
    assert Shape(h) && Shapes(s);
    ReleaseMove(s, i);
    hide ActNext, UnwindOne, Rest, SoundMove;
    StackPrefix(h);
    CountPositive(s.hs, i, Holding(h.lim));
    var bucket := Limiter.GiveBack(s.lims[h.lim].bucket);
    SlotChange(s, i, s'.hs[i], h.lim, bucket);
    CountUpdate(s.hs, i, s'.hs[i], StillRunning());
    MoveRest(s, i, s'.hs[i]);
    BucketRest(With(s, i, s'.hs[i]), h.lim, bucket);
  }

  lemma WgDoneCounts(s: State, i: nat)
    requires Shapes(s) && Slots(s) && Counted(s)
    requires i < |s.hs| && ActEnabled(s, i, Unwind) && s.hs[i].defers[|s.hs[i].defers| - 1] == WgDone
    ensures var s' := ActNext(s, i, Unwind);
            && Slots(s') && Counted(s') && s.wg > 0
            && i < |s'.hs| && SoundMove(s, i, s'.hs[i]) && s' == With(s, i, s'.hs[i]).(wg := s.wg - 1)
  {
    var h := s.hs[i];
    var s' := ActNext(s, i, Unwind);
    assert Shape(h);
    Pop(h);
    StackPrefix(h);
    StackPrefix(s'.hs[i]);
    CountPositive(s.hs, i, StillRunning());
    CountUpdate(s.hs, i, s'.hs[i], StillRunning());
    hide Shapes, Shape;
    forall l | 0 <= l < |s.lims| ensures Count(s'.hs, Holding(l)) == Count(s.hs, Holding(l)) {
      CountUpdate(s.hs, i, s'.hs[i], Holding(l));
    }
  }

  lemma WgOnly(s: State, wg: int)
    requires Rest(s) && s.wg > 0
    ensures Rest(s.(wg := wg))
  {
    var s' := s.(wg := wg);
    assert Shapes(s') && MapsMatch(s') && ReapsDeparted(s') && Ordered(s');
    hide Shapes, MapsMatch, ReapsDeparted, Ordered;
    assert LiveSets(s');
    hide LiveSets;
    assert forall i :: 0 <= i < |s.hs| ==> Registered(s', i) == Registered(s, i) && Condemned(s', i) == Condemned(s, i);
    assert forall l :: InForce(s', l) == InForce(s, l);
  }

  lemma WgDoneStep(s: State, i: nat)
    requires Inv(s) && i < |s.hs| && ActEnabled(s, i, Unwind) && s.hs[i].defers[|s.hs[i].defers| - 1] == WgDone
    ensures Inv(ActNext(s, i, Unwind)) && s.wg > 0
  {
    hide ActNext, UnwindOne, Shape, Slots, Counted, Shapes, LiveSets, Covered, PassedInForce, MapsMatch, ReapsDeparted,
        Ordered;
    hide SoundMove;
    WgDoneCounts(s, i);
    var h' := ActNext(s, i, Unwind).hs[i];
    MoveRest(s, i, h');
    hide Rest;
    WgOnly(With(s, i, h'), s.wg - 1);
  }

  /** Joining or leaving a live set touches neither the maps, nor what is owed, nor Run's order. */
  lemma LiveSetOnly(s: State, i: nat, h': Handler, live: set<nat>)
    requires MapsMatch(s) && ReapsDeparted(s) && Ordered(s) && i < |s.hs| && s.hs[i].lim < |s.lims|
    requires h'.lim == s.hs[i].lim && !h'.pc.Fresh?
    ensures var s' := WithLim(With(s, i, h'), h'.lim, s.lims[h'.lim].(live := live));
            MapsMatch(s') && ReapsDeparted(s') && Ordered(s') && forall k :: InForce(s', k) == InForce(s, k)
  {
  }

  lemma TrackRest(s: State, i: nat, h': Handler)
    requires Rest(s) && i < |s.hs| && s.hs[i].pc.Tracking? && s.hs[i].lim < |s.lims| && h' == s.hs[i].(pc := Rechecking)
    ensures Rest(WithLim(With(s, i, h'), h'.lim, s.lims[h'.lim].(live := s.lims[h'.lim].live + {i})))
  {
    var s' := WithLim(With(s, i, h'), h'.lim, s.lims[h'.lim].(live := s.lims[h'.lim].live + {i}));
    LiveSetOnly(s, i, h', s'.lims[h'.lim].live);
    hide MapsMatch, ReapsDeparted, Ordered;
    forall j | 0 <= j < |s.hs| && j != i
      ensures Registered(s', j) == Registered(s, j) && Condemned(s', j) == Condemned(s, j)
    {
    }
    assert Registered(s', i) && !Passed(h');
    forall l, j | 0 <= l < |s.lims| && j in s'.lims[l].live
      ensures j < |s'.hs| && s'.hs[j].lim == l && MayBeLive(s'.hs[j])
    {
      if j != i {
        assert j in s.lims[l].live;
      }
    }
  }

  /** A handler that keeps its slot and is still running leaves both counts alone. */
  lemma SameCounts(s: State, i: nat, h': Handler)
    requires Shapes(s) && i < |s.hs| && h'.defers <= STACK && h'.lim == s.hs[i].lim
    requires (|h'.defers| >= 3 <==> |s.hs[i].defers| >= 3) && (h'.defers == [] <==> s.hs[i].defers == [])
    ensures Count(s.hs[i := h'], StillRunning()) == Count(s.hs, StillRunning())
    ensures forall l :: Count(s.hs[i := h'], Holding(l)) == Count(s.hs, Holding(l))
  {
    StackPrefix(s.hs[i]);
    StackPrefix(h');
    forall l ensures Count(s.hs[i := h'], Holding(l)) == Count(s.hs, Holding(l)) {
      CountUpdate(s.hs, i, h', Holding(l));
    }
    CountUpdate(s.hs, i, h', StillRunning());
  }

  lemma TrackStep(s: State, i: nat)
    requires Inv(s) && i < |s.hs| && ActEnabled(s, i, Track)
    ensures Inv(ActNext(s, i, Track))
  {
    var h' := s.hs[i].(pc := Rechecking);
    assert Shape(s.hs[i]);
    SameCounts(s, i, h');
    TrackRest(s, i, h');
    hide Rest;
  }

  /** A registration leaves a live set only when its handler no longer relies on it. */
  lemma UntrackRest(s: State, i: nat, h': Handler)
    requires Rest(s) && i < |s.hs| && h'.pc.Unwinding? && s.hs[i].lim < |s.lims|
    requires h' == s.hs[i].(pc := Unwinding, defers := h'.defers) && Shape(h') && |h'.defers| < 5
    requires Bound(h') ==> Bound(s.hs[i])
    ensures Rest(WithLim(With(s, i, h'), h'.lim, s.lims[h'.lim].(live := s.lims[h'.lim].live - {i})))
  {
    var s' := WithLim(With(s, i, h'), h'.lim, s.lims[h'.lim].(live := s.lims[h'.lim].live - {i}));
    LiveSetOnly(s, i, h', s'.lims[h'.lim].live);
    hide MapsMatch, ReapsDeparted, Ordered;
    forall j | 0 <= j < |s.hs| && j != i
      ensures Registered(s', j) == Registered(s, j) && Condemned(s', j) == Condemned(s, j)
    {
    }
    assert !Exposed(h') && !Passed(h');
    forall l, j | 0 <= l < |s.lims| && j in s'.lims[l].live
      ensures j < |s'.hs| && s'.hs[j].lim == l && MayBeLive(s'.hs[j])
    {
      assert j in s.lims[l].live;
      assert j < |s.hs| && s.hs[j].lim == l && MayBeLive(s.hs[j]);
    }
  }

  lemma UntrackMove(s: State, i: nat, act: Act)
    requires i < |s.hs| && Shape(s.hs[i]) && ActEnabled(s, i, act)
    requires act.DropOrphan? || (act.Unwind? && s.hs[i].defers[|s.hs[i].defers| - 1] == Untrack)
    ensures var s', h := ActNext(s, i, act), s.hs[i];
            && i < |s'.hs| && s.hs[i].lim < |s.lims|
            && var h' := s'.hs[i];
               && h' == h.(pc := Unwinding, defers := h'.defers) && Shape(h') && |h'.defers| < 5 && h'.defers <= STACK
               && (Bound(h') ==> Bound(h)) && (|h'.defers| >= 3 <==> |h.defers| >= 3)
                    && (h'.defers == [] <==> h.defers == [])
               && s' == WithLim(With(s, i, h'), h'.lim, s.lims[h'.lim].(live := s.lims[h'.lim].live - {i}))
  {
    hide Grants, Limiter.TryAcquire, Limiter.GiveBack;
    if act.Unwind? {
      Pop(s.hs[i]);
    }
  }

  lemma UntrackStep(s: State, i: nat, act: Act)
    requires Inv(s) && i < |s.hs| && ActEnabled(s, i, act)
    requires act.DropOrphan? || (act.Unwind? && s.hs[i].defers[|s.hs[i].defers| - 1] == Untrack)
    ensures Inv(ActNext(s, i, act))
  {
    assert Shape(s.hs[i]) && Shapes(s);
    UntrackMove(s, i, act);
    hide ActNext, UnwindOne, Shape, Shapes, LiveSets, Covered, PassedInForce, MapsMatch, ReapsDeparted, Ordered;
    var h' := ActNext(s, i, act).hs[i];
    SameCounts(s, i, h');
    UntrackRest(s, i, h');
    hide Rest;
  }

  lemma HandlerStep(s: State, i: nat, act: Act)
    requires Inv(s) && i < |s.hs| && ActEnabled(s, i, act)
    ensures Inv(ActNext(s, i, act))
  {
    hide Inv;
    match act
    case Acquire(now) => AcquireStep(s, i, now);
    case Track => TrackStep(s, i);
    case DropOrphan => UntrackStep(s, i, act);
    case Unwind =>
      match s.hs[i].defers[|s.hs[i].defers| - 1] {
        case WgDone => WgDoneStep(s, i);
        case Release => ReleaseStep(s, i);
        case Untrack => UntrackStep(s, i, act);
        case ClosePeer | CloseBackend => LocalSteps(s, i, act);
      }
    case _ => LocalSteps(s, i, act);
  }

  // --------------------------------------------------------------------
  // Accepting, closing, draining
  // --------------------------------------------------------------------

  lemma AcceptStep(s: State, addr: Addr)
    requires Inv(s) && Enabled(s, Accept(addr))
    ensures Inv(Next(s, Accept(addr)))
  {
    var s' := Next(s, Accept(addr));
    var h := s'.hs[|s.hs|];
    AcceptRest(s, addr);
    hide Shapes, LiveSets, Covered, PassedInForce, MapsMatch, ReapsDeparted, Ordered;
    assert h.defers == STACK[..2];
    StackPrefix(h);
    CountAppend(s.hs, h, StillRunning());
    forall l ensures Count(s'.hs, Holding(l)) == Count(s.hs, Holding(l)) {
      CountAppend(s.hs, h, Holding(l));
    }
  }

  lemma AcceptRest(s: State, addr: Addr)
    requires Rest(s) && Enabled(s, Accept(addr))
    ensures Rest(Next(s, Accept(addr)))
  {
    var s' := Next(s, Accept(addr));
    var h := s'.hs[|s.hs|];
    assert h.defers == STACK[..2];
    assert Shape(h) && !Exposed(h) && !Passed(h);
    assert forall i :: 0 <= i < |s.hs| ==>
        s'.hs[i] == s.hs[i] && Registered(s', i) == Registered(s, i) && Condemned(s', i) == Condemned(s, i);
    assert forall l :: InForce(s', l) == InForce(s, l);
  }

  /** Shapes, slots, live sets and maps do not look at the watcher or at Run. */
  lemma Reshuffled(s: State, s': State)
    requires s' == s.(watch := s'.watch, run := s'.run) && (s'.watch.Stored? == s.watch.Stored?)
    ensures Shapes(s) == Shapes(s') && Slots(s) == Slots(s') && LiveSets(s) == LiveSets(s')
              && MapsMatch(s) == MapsMatch(s') && Counted(s) == Counted(s')
  {
  }

  /** `s'` is `s` with the close `c` struck off whoever owed it. */
  predicate Struck(s: State, c: Close, s': State) {
    && s' == s.(watch := s'.watch, run := s'.run)
    && (s'.watch == s.watch || (s.watch.Refreshing? && s'.watch == Refreshing(s.watch.gone, s.watch.closing - {c})))
    && (s'.run == s.run || (s.run.DrainingAll? && s'.run == s.run.(closing := s.run.closing - {c})))
  }

  lemma StruckCovered(s: State, c: Close, s': State)
    requires Covered(s) && PassedInForce(s) && Struck(s, c, s') && c.h < |s.hs| && !IsOpen(s.hs[c.h], c.side)
    ensures Covered(s') && PassedInForce(s')
  {
    assert forall d :: Pending(s, d) && d != c ==> Pending(s', d);
    assert forall i :: 0 <= i < |s.hs| && Condemned(s, i) ==> Condemned(s', i);
    assert forall i :: 0 <= i < |s.hs| ==> Registered(s', i) == Registered(s, i);
    assert forall l :: InForce(s', l) == InForce(s, l);
  }

  lemma StruckOff(s: State, c: Close, s': State)
    requires Inv(s) && Struck(s, c, s') && c.h < |s.hs| && !IsOpen(s.hs[c.h], c.side)
    ensures Inv(s')
  {
    Reshuffled(s, s');
    StruckCovered(s, c, s');
    hide Shapes, Slots, LiveSets, Counted, Covered, PassedInForce, MapsMatch;
  }

  /** A close owed to somebody is made: whoever it covers stays covered. */
  lemma CloseStep(s: State, c: Close, s': State)
    requires Inv(s) && c.h < |s.hs| && Struck(With(s, c.h, Shut(s.hs[c.h], c.side)), c, s')
    ensures Inv(s')
  {
    var h' := Shut(s.hs[c.h], c.side);
    assert Shape(s.hs[c.h]);
    assert LocalMove(s, c.h, h');
    hide Inv;
    Move(s, c.h, h');
    StruckOff(With(s, c.h, h'), c, s');
  }

  /** What draining one limiter's live set keeps, for any way of owing the closes. */
  lemma DrainedCovered(s: State, l: nat, s': State)
    requires Shapes(s) && LiveSets(s) && Covered(s) && l < |s.lims|
    requires s' == Drained(s, l).0.(watch := s'.watch, run := s'.run)
    requires forall c :: Pending(s, c) || c in BothSides(s.lims[l].live) ==> Pending(s', c)
    ensures LiveSets(s') && Covered(s')
  {
    forall k, i | 0 <= k < |s'.lims| && i in s'.lims[k].live
      ensures i < |s'.hs| && s'.hs[i].lim == k && MayBeLive(s'.hs[i])
    {
      assert i in s.lims[k].live;
    }
    forall i | 0 <= i < |s'.hs| && Exposed(s'.hs[i]) ensures Registered(s', i) || Condemned(s', i) {
      if i in s.lims[l].live {
        assert Close(i, PeerSide) in BothSides(s.lims[l].live) && Close(i, BackendSide) in BothSides(s.lims[l].live);
      } else {
        assert Registered(s, i) || Condemned(s, i);
      }
    }
  }

  lemma DrainedSlots(s: State, l: nat)
    requires Slots(s) && l < |s.lims|
    ensures Slots(Drained(s, l).0)
  {
  }

  /** The closes a reaped limiter leaves owed belong to a departed pair. */
  lemma ReapOwed(s: State, l: nat)
    requires Shapes(s) && LiveSets(s) && ReapsDeparted(s) && Enabled(s, ReapLimiter(l))
    ensures ReapsDeparted(Next(s, ReapLimiter(l)))
  {
    var s' := Next(s, ReapLimiter(l));
    forall c | c in s'.watch.closing
      ensures c.h < |s'.hs| && !s'.hs[c.h].pc.Fresh? && s'.hs[c.h].lim < |s'.lims|
                && Absent(s'.lims[s'.hs[c.h].lim], s'.cur)
    {
      assert c.h in s.lims[l].live;
      assert Shape(s.hs[c.h]);
    }
  }

  lemma ReapParts(s: State, l: nat)
    requires Shapes(s) && MapsMatch(s) && Ordered(s) && Counted(s) && Enabled(s, ReapLimiter(l))
    ensures var s' := Next(s, ReapLimiter(l)); Shapes(s') && MapsMatch(s') && Ordered(s') && Counted(s')
  {
    hide BothSides, Peers.Accepted;
  }

  lemma ReapStep(s: State, l: nat)
    requires Inv(s) && Enabled(s, ReapLimiter(l))
    ensures Inv(Next(s, ReapLimiter(l)))
  {
    var s' := Next(s, ReapLimiter(l));
    DrainedCovered(s, l, s');
    DrainedSlots(s, l);
    ReapOwed(s, l);
    ReapParts(s, l);
    assert Slots(s');
    hide ReapsDeparted, BothSides, Slots, Counted, Shapes, MapsMatch, Ordered, Covered, LiveSets;
    assert forall k :: InForce(s', k) == InForce(s, k);
    assert forall i :: 0 <= i < |s.hs| && Registered(s', i) ==> Registered(s, i) && s.hs[i].lim != l;
    assert PassedInForce(s');
  }

  lemma DrainParts(s: State, l: nat)
    requires Rest(s) && Enabled(s, DrainLimiter(l))
    ensures var s' := Next(s, DrainLimiter(l)); Shapes(s') && MapsMatch(s') && ReapsDeparted(s') && Ordered(s')
  {
    var s' := Next(s, DrainLimiter(l));
    hide Covered, PassedInForce;
    forall c | c in s'.run.closing ensures c.h < |s'.hs| {
      assert c.h in s.lims[l].live;
    }
    hide LiveSets, BothSides;
  }

  lemma DrainStep(s: State, l: nat)
    requires Inv(s) && Enabled(s, DrainLimiter(l))
    ensures Inv(Next(s, DrainLimiter(l)))
  {
    var s' := Next(s, DrainLimiter(l));
    DrainedCovered(s, l, s');
    DrainedSlots(s, l);
    DrainParts(s, l);
    assert Slots(s') && Counted(s');
    hide Shapes, MapsMatch, ReapsDeparted, Ordered, BothSides, Slots, Counted, Covered, LiveSets;
    assert forall k :: InForce(s', k) == InForce(s, k);
    assert forall i :: 0 <= i < |s.hs| && Registered(s', i) ==> Registered(s, i);
    assert PassedInForce(s');
  }

  // --------------------------------------------------------------------
  // Reloads and Run
  // --------------------------------------------------------------------

  lemma SwapLimiters(s: State, after: map<Addr, nat>, added: seq<Lim>)
    requires Enabled(s, Swap(after, added))
    ensures var lims := Next(s, Swap(after, added)).lims;
            && |lims| == |s.lims| + |added|
            && (forall l :: 0 <= l < |s.lims| ==>
                 lims[l].addr == s.lims[l].addr && lims[l].key == s.lims[l].key && lims[l].live == s.lims[l].live
                   && lims[l].bucket.active == s.lims[l].bucket.active)
            && (forall l :: |s.lims| <= l < |lims| ==> lims[l] == added[l - |s.lims|] && BuiltFor(lims[l], s.cur))
  {
  }

  lemma NobodyHoldsNew(s: State, l: nat)
    requires Shapes(s) && |s.lims| <= l
    ensures Count(s.hs, Holding(l)) == 0
  {
    forall h | h in s.hs ensures !Holding(l)(h) {
      var i :| 0 <= i < |s.hs| && s.hs[i] == h;
      assert Shape(s.hs[i]);
      StackPrefix(h);
    }
    CountZero(s.hs, Holding(l));
  }

  lemma BuiltIdle(l: Lim, peers: seq<PeerConfig>)
    requires Peers.Accepted(peers) && BuiltFor(l, peers)
    ensures l.bucket.active == 0 <= l.peak && l.bucket.maxConcurrent <= l.peak && l.live == {}
  {
    hide Peers.Distinct, Unmap;
  }

  lemma RelimitedPeak(s: State, after: map<Addr, nat>, added: seq<Lim>, l: nat)
    requires Enabled(s, Swap(after, added)) && l < |s.lims| && s.lims[l].bucket.maxConcurrent <= s.lims[l].peak
    ensures var lims := Next(s, Swap(after, added)).lims;
            l < |lims| && lims[l].peak >= s.lims[l].peak && lims[l].bucket.maxConcurrent <= lims[l].peak
  {
    hide SwapAllowed, LimitsAt;
  }

  lemma SwapSlots(s: State, after: map<Addr, nat>, added: seq<Lim>)
    requires Slots(s) && Shapes(s) && MapsMatch(s) && Enabled(s, Swap(after, added))
    ensures Slots(Next(s, Swap(after, added)))
  {
    var s' := Next(s, Swap(after, added));
    SwapLimiters(s, after, added);
    assert s'.hs == s.hs && s'.cur == s.cur && Peers.Accepted(s.cur);
    hide Shapes, MapsMatch, SwapAllowed, BuiltFor, Next, Enabled, Peers.Accepted;
    forall l | 0 <= l < |s.lims|
      ensures s'.lims[l].bucket.active <= s'.lims[l].peak && s'.lims[l].bucket.maxConcurrent <= s'.lims[l].peak
    {
      RelimitedPeak(s, after, added, l);
    }
    forall l | |s.lims| <= l < |s'.lims|
      ensures s'.lims[l].bucket.active == Count(s.hs, Holding(l)) <= s'.lims[l].peak
                && s'.lims[l].bucket.maxConcurrent <= s'.lims[l].peak
    {
      BuiltIdle(s'.lims[l], s.cur);
      NobodyHoldsNew(s, l);
    }
  }

  /** Whoever leaves the map belonged to a pair that left the list. */
  lemma SwapReaps(s: State, after: map<Addr, nat>, added: seq<Lim>, l: nat)
    requires MapsMatch(s) && Enabled(s, Swap(after, added))
    requires l in s.inForce.Values && l !in after.Values
    ensures l < |s.lims| && Absent(s.lims[l], s.cur)
  {
    var lims := s.lims + added;
    var a :| a in s.inForce && s.inForce[a] == l;
    forall p | p in s.cur && p.tunnelIP == a ensures p.publicKey != s.lims[l].key {
      assert Unmap(p.tunnelIP) == a && KeyIn(lims)(l) == s.lims[l].key;
    }
  }

  /** The rebuilt map matches the list, given that limiters keep their address and key. */
  lemma RebuiltMatches(s: State, s': State, after: map<Addr, nat>, lims: seq<Lim>)
    requires Refreshes(s.inForce, after, s.cur, KeyIn(lims)) && Peers.Accepted(s.cur)
    requires s'.inForce == after && s'.cur == s.cur && |s'.lims| == |lims|
    requires forall l :: 0 <= l < |lims| ==> s'.lims[l].addr == lims[l].addr && s'.lims[l].key == lims[l].key
    requires forall a :: a in after ==> after[a] < |lims| && lims[after[a]].addr == a
    ensures MapsMatch(s')
  {
    assert forall p :: p in s.cur ==> Unmap(p.tunnelIP) == p.tunnelIP;
    hide Unmap;
    assert (set p | p in s.cur :: Unmap(p.tunnelIP)) == (set p | p in s.cur :: p.tunnelIP);
    forall p | p in s.cur ensures s'.lims[after[p.tunnelIP]].key == p.publicKey {
      assert KeyIn(lims)(after[Unmap(p.tunnelIP)]) == p.publicKey;
    }
  }

  lemma SwapMaps(s: State, after: map<Addr, nat>, added: seq<Lim>)
    requires MapsMatch(s) && Enabled(s, Swap(after, added))
    ensures MapsMatch(Next(s, Swap(after, added)))
  {
    SwapLimiters(s, after, added);
    hide RelimitedAll, BuiltFor, Peers.Accepted, Refreshes, Unmap;
    RebuiltMatches(s, Next(s, Swap(after, added)), after, s.lims + added);
  }

  /** What the rebuild has established after the first peers of the list. */
  ghost predicate Rebuilding(s: State, after: map<Addr, nat>, added: seq<Lim>, n: nat)
    requires n <= |s.cur|
  {
    && Refreshes(s.inForce, after, s.cur[..n], KeyIn(s.lims + added))
    && (forall l :: l in added ==> BuiltFor(l, s.cur))
    && (forall a :: a in after ==> after[a] < |s.lims + added| && (s.lims + added)[after[a]].addr == a
                                   && (after[a] < |s.lims| ==> after[a] in s.inForce.Values))
  }

  lemma NotYetRebuilt(s: State, n: nat)
    requires Peers.Accepted(s.cur) && n < |s.cur|
    ensures forall q :: q in s.cur[..n] ==> Unmap(q.tunnelIP) != Unmap(s.cur[n].tunnelIP)
  {
    assert forall p :: p in s.cur ==> Unmap(p.tunnelIP) == p.tunnelIP;
  }

  lemma OnePeerMore(before: map<Addr, nat>, after: map<Addr, nat>, peers: seq<PeerConfig>, p: PeerConfig, l: nat,
                    keyOf: nat -> string)
    requires Refreshes(before, after, peers, keyOf) && keyOf(l) == p.publicKey
    requires forall q :: q in peers ==> Unmap(q.tunnelIP) != Unmap(p.tunnelIP)
    requires var ip := Unmap(p.tunnelIP);
             if ip in before && keyOf(before[ip]) == p.publicKey then l == before[ip] else l !in before.Values
    ensures Refreshes(before, after[Unmap(p.tunnelIP) := l], peers + [p], keyOf)
  {
    hide Unmap;
    assert after[Unmap(p.tunnelIP) := l].Keys == set q | q in peers + [p] :: Unmap(q.tunnelIP);
  }

  lemma OneLimiterMore(before: map<Addr, nat>, after: map<Addr, nat>, peers: seq<PeerConfig>, lims: seq<Lim>, more: Lim)
    requires Refreshes(before, after, peers, KeyIn(lims))
    requires forall a :: a in after ==> after[a] < |lims|
    requires forall a :: a in before ==> before[a] < |lims|
    ensures Refreshes(before, after, peers, KeyIn(lims + [more]))
  {
    hide Unmap;
    assert forall l: nat :: l < |lims| ==> KeyIn(lims + [more])(l) == KeyIn(lims)(l);
  }

  lemma KeepOne(s: State, after: map<Addr, nat>, added: seq<Lim>, n: nat)
    requires MapsMatch(s) && n < |s.cur| && Rebuilding(s, after, added, n)
    requires var ip := Unmap(s.cur[n].tunnelIP); ip in s.inForce && s.lims[s.inForce[ip]].key == s.cur[n].publicKey
    ensures var ip := Unmap(s.cur[n].tunnelIP); Rebuilding(s, after[ip := s.inForce[ip]], added, n + 1)
  {
    var p := s.cur[n];
    var ip, lims := Unmap(p.tunnelIP), s.lims + added;
    NotYetRebuilt(s, n);
    assert s.cur[..n + 1] == s.cur[..n] + [p];
    assert KeyIn(lims)(s.inForce[ip]) == p.publicKey;
    hide Peers.Accepted, Unmap;
    OnePeerMore(s.inForce, after, s.cur[..n], p, s.inForce[ip], KeyIn(lims));
    hide Refreshes, KeyIn, BuiltFor;
  }

  lemma AddedEntries(s: State, after: map<Addr, nat>, added: seq<Lim>, ip: Addr, built: Lim)
    requires built.addr == ip && forall l :: l in added ==> BuiltFor(l, s.cur)
    requires BuiltFor(built, s.cur)
    requires forall a :: a in after ==>
               && after[a] < |s.lims + added| && (s.lims + added)[after[a]].addr == a
               && (after[a] < |s.lims| ==> after[a] in s.inForce.Values)
    ensures var after', added' := after[ip := |s.lims + added|], added + [built];
            && (forall l :: l in added' ==> BuiltFor(l, s.cur))
            && (forall a :: a in after' ==>
                  && after'[a] < |s.lims + added'| && (s.lims + added')[after'[a]].addr == a
                  && (after'[a] < |s.lims| ==> after'[a] in s.inForce.Values))
  {
    hide BuiltFor;
    assert s.lims + (added + [built]) == (s.lims + added) + [built];
  }

  lemma AddOne(s: State, after: map<Addr, nat>, added: seq<Lim>, n: nat, built: Lim)
    requires MapsMatch(s) && n < |s.cur| && Rebuilding(s, after, added, n)
    requires var ip := Unmap(s.cur[n].tunnelIP); !(ip in s.inForce && s.lims[s.inForce[ip]].key == s.cur[n].publicKey)
    requires built.addr == Unmap(s.cur[n].tunnelIP) && built.key == s.cur[n].publicKey && BuiltFor(built, s.cur)
    ensures Rebuilding(s, after[Unmap(s.cur[n].tunnelIP) := |s.lims + added|], added + [built], n + 1)
  {
    var p := s.cur[n];
    var ip, lims := Unmap(p.tunnelIP), s.lims + added;
    NotYetRebuilt(s, n);
    assert s.cur[..n + 1] == s.cur[..n] + [p] && s.lims + (added + [built]) == lims + [built];
    assert KeyIn(lims + [built])(|lims|) == p.publicKey;
    assert ip in s.inForce ==> KeyIn(lims + [built])(s.inForce[ip]) == s.lims[s.inForce[ip]].key;
    assert forall a :: a in s.inForce ==> s.inForce[a] < |lims|;
    hide Peers.Accepted, Unmap, BuiltFor, KeyIn, MapsMatch, Refreshes;
    AddedEntries(s, after, added, ip, built);
    OneLimiterMore(s.inForce, after, s.cur[..n], lims, built);
    OnePeerMore(s.inForce, after, s.cur[..n], p, |lims|, KeyIn(lims + [built]));
  }

  /** One peer further: its limiter in force, or a new one at the end. */
  lemma RebuildOne(s: State, after: map<Addr, nat>, added: seq<Lim>, n: nat)
    returns (after': map<Addr, nat>, added': seq<Lim>)
    requires MapsMatch(s) && n < |s.cur| && Rebuilding(s, after, added, n)
    ensures Rebuilding(s, after', added', n + 1)
  {
    var p := s.cur[n];
    var ip := Unmap(p.tunnelIP);
    hide Peers.Accepted, Unmap, Refreshes, KeyIn, Rebuilding;
    if ip in s.inForce && s.lims[s.inForce[ip]].key == p.publicKey {
      after', added' := after[ip := s.inForce[ip]], added;
      KeepOne(s, after, added, n);
    } else {
      var built := Lim(ip, p.publicKey, Limiter.New(p.limits, 0.0), p.limits.maxConcurrent, {});
      after', added' := after[ip := |s.lims + added|], added + [built];
      assert BuiltFor(built, s.cur);
      AddOne(s, after, added, n, built);
    }
  }

  /** A published list can always be swapped in. */
  lemma SwapPossible(s: State) returns (after: map<Addr, nat>, added: seq<Lim>)
    requires MapsMatch(s) && s.watch.Stored?
    ensures Enabled(s, Swap(after, added))
  {
    after, added := map[], [];
    for n := 0 to |s.cur|
      invariant Rebuilding(s, after, added, n)
    {
      after, added := RebuildOne(s, after, added, n);
    }
    assert s.cur[..|s.cur|] == s.cur;
  }

  lemma SwapStep(s: State, after: map<Addr, nat>, added: seq<Lim>)
    requires Inv(s) && Enabled(s, Swap(after, added))
    ensures Inv(Next(s, Swap(after, added)))
  {
    var s' := Next(s, Swap(after, added));
    SwapLimiters(s, after, added);
    SwapSlots(s, after, added);
    SwapMaps(s, after, added);
    forall l | l in s'.watch.gone ensures l < |s'.lims| && Absent(s'.lims[l], s'.cur) {
      SwapReaps(s, after, added, l);
    }
    SwapCovered(s, s');
  }

  /** The swap forgets no registration: a limiter it drops is one it will reap. */
  lemma SwapCovered(s: State, s': State)
    requires Rest(s) && s.watch.Stored? && MapsMatch(s')
    requires s' == s.(lims := s'.lims, inForce := s'.inForce,
               watch := Refreshing(s.inForce.Values - s'.inForce.Values, {}))
    requires |s.lims| <= |s'.lims|
    requires forall l :: 0 <= l < |s.lims| ==> s'.lims[l].addr == s.lims[l].addr && s'.lims[l].live == s.lims[l].live
    requires forall l :: |s.lims| <= l < |s'.lims| ==> s'.lims[l].live == {}
    ensures Shapes(s') && LiveSets(s') && Covered(s') && PassedInForce(s') && Ordered(s')
  {
    assert forall i :: 0 <= i < |s.hs| && Exposed(s.hs[i]) ==>
        Registered(s', i) == Registered(s, i) && Condemned(s', i) == Condemned(s, i);
    forall l, i | 0 <= l < |s'.lims| && i in s'.lims[l].live
      ensures i < |s'.hs| && s'.hs[i].lim == l && MayBeLive(s'.hs[i])
    {
      assert l < |s.lims| && i in s.lims[l].live;
    }
    forall i | 0 <= i < |s.hs| && Passed(s.hs[i]) && Registered(s', i)
      ensures InForce(s', s.hs[i].lim) || s.hs[i].lim in s'.watch.gone
    {
      var l := s.hs[i].lim;
      assert InForce(s, l);
      if l in s'.inForce.Values {
        var a :| a in s'.inForce && s'.inForce[a] == l;
        assert s'.lims[l].addr == a;
      }
    }
  }

  /** Neither a handler nor a limiter nor an owed close changes. */
  lemma ControlKeeps(s: State, s': State)
    requires Rest(s) && s'.hs == s.hs && s'.lims == s.lims && s'.inForce == s.inForce
    requires forall c :: Pending(s', c) == Pending(s, c)
    requires Gone(s') == Gone(s) && MapsMatch(s') && ReapsDeparted(s') && Ordered(s')
    ensures Rest(s')
  {
    assert forall i :: 0 <= i < |s.hs| ==> Registered(s', i) == Registered(s, i) && Condemned(s', i) == Condemned(s, i);
    assert forall l :: InForce(s', l) == InForce(s, l);
  }

  predicate ByRun(a: Step) {
    a.Cancel? || a.Listen? || a.AcceptFails? || a.RunDeferred? || a.DrainDone? || a.DrainTimeout?
  }

  lemma RunOrdered(s: State, a: Step)
    requires Ordered(s) && Counted(s) && Enabled(s, a) && ByRun(a)
    ensures Ordered(Next(s, a))
  {
    hide Counted, BothSides;
  }

  lemma RunFrame(s: State, a: Step)
    requires Enabled(s, a) && ByRun(a)
    ensures var s' := Next(s, a);
            s' == s.(run := s'.run, cancelled := s'.cancelled, deviceOpen := s'.deviceOpen, timedOut := s'.timedOut)
    ensures forall c :: Pending(Next(s, a), c) == Pending(s, c)
  {
    hide BothSides;
  }

  lemma RunStep(s: State, a: Step)
    requires Inv(s) && Enabled(s, a) && ByRun(a)
    ensures Inv(Next(s, a))
  {
    hide Next, Enabled, Shapes, LiveSets, Covered, PassedInForce, Ordered, Peers.Accepted, Pending;
    RunOrdered(s, a);
    RunFrame(s, a);
    ControlKeeps(s, Next(s, a));
  }

  predicate ByWatcher(a: Step) {
    a.Publish? || a.RefreshDone? || a.ApplyDone? || a.WatcherExit? || a.WatcherCancel?
  }

  lemma WatcherParts(s: State, a: Step)
    requires MapsMatch(s) && ReapsDeparted(s) && Ordered(s) && Enabled(s, a) && ByWatcher(a)
    ensures var s' := Next(s, a); MapsMatch(s') && ReapsDeparted(s') && Ordered(s')
  {
    hide Peers.Accepted, BothSides;
  }

  lemma WatcherStep(s: State, a: Step)
    requires Inv(s) && Enabled(s, a) && ByWatcher(a)
    ensures Inv(Next(s, a))
  {
    WatcherParts(s, a);
    var s' := Next(s, a);
    hide Shapes, LiveSets, Covered, PassedInForce, MapsMatch, ReapsDeparted, Ordered;
    assert s' == s.(cur := s'.cur, watch := s'.watch, cancelled := s'.cancelled);
    assert forall c :: Pending(s', c) == Pending(s, c);
    assert Gone(s') == Gone(s);
    hide Next, Enabled;
    ControlKeeps(s, s');
  }

  lemma StepKeepsInv(s: State, a: Step)
    requires Inv(s) && Enabled(s, a)
    ensures Inv(Next(s, a))
  {
    match a
    case Accept(addr) => AcceptStep(s, addr);
    case DrainLimiter(l) => DrainStep(s, l);
    case DrainClose(c) => CloseStep(s, c, Next(s, a));
    case Swap(after, added) => SwapStep(s, after, added);
    case ReapLimiter(l) => ReapStep(s, l);
    case ReapClose(c) => CloseStep(s, c, Next(s, a));
    case Handle(i, act) => HandlerStep(s, i, act);
    case Publish(_) | RefreshDone | ApplyDone | WatcherExit | WatcherCancel => WatcherStep(s, a);
    case Cancel | Listen | AcceptFails | RunDeferred | DrainDone | DrainTimeout => RunStep(s, a);
  }

  /** Every interleaving of handlers, reloads and shutdown keeps the invariant. */
  lemma {:induction false} RunKeepsInv(s: State, run: seq<Step>)
    requires Inv(s) && Legal(s, run)
    ensures Inv(After(s, run))
    decreases run
  {
    hide Inv, Enabled, Next;
    if run != [] {
      StepKeepsInv(s, run[0]);
      RunKeepsInv(Next(s, run[0]), run[1..]);
    }
  }
}
