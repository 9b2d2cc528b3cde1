/**
 Whose limiter is in force at a listed address, and with which limits, in every
 interleaving of handlers, reloads and shutdown.
 */
module ReloadTheorems {
  import opened Prelude
  import opened Addresses
  import opened Peers
  import opened ServerProtocol
  import opened ServerInvariant
  import opened ServerTheorems
  import opened HandlerFrames
  import HandlerStories
  import Limiter

  predicate Carries(b: Limiter.Bucket, l: Limiter.Limits) {
    b.maxConcurrent == l.maxConcurrent && b.rate == b.burst == l.dialsPerSecond as real
  }

  /** Outside a swap every listed peer's limits are those of the limiter at its address. */
  ghost predicate LimitsMatch(s: State) {
    !s.watch.Stored? ==> forall p :: p in s.cur ==>
      && p.tunnelIP in s.inForce && s.inForce[p.tunnelIP] < |s.lims|
      && Carries(s.lims[s.inForce[p.tunnelIP]].bucket, p.limits)
  }

  lemma {:induction false} LimitsFound(peers: seq<PeerConfig>, p: PeerConfig)
    requires Distinct(peers) && p in peers
    ensures LimitsAt(peers, p.tunnelIP, p.publicKey) == Some(p.limits)
  {
    if peers[0].tunnelIP == p.tunnelIP {
      var i :| 0 <= i < |peers| && peers[i] == p;
    } else {
      assert p in peers[1..];
      LimitsFound(peers[1..], p);
    }
  }

  lemma RelimitedCarries(l: Lim, peers: seq<PeerConfig>, p: PeerConfig)
    requires Distinct(peers) && p in peers && l.addr == p.tunnelIP && l.key == p.publicKey
    ensures Carries(Relimited(l, peers).bucket, p.limits)
  {
    LimitsFound(peers, p);
  }

  lemma BuiltCarries(l: Lim, peers: seq<PeerConfig>, p: PeerConfig)
    requires Accepted(peers) && p in peers && BuiltFor(l, peers) && l.addr == p.tunnelIP
    ensures Carries(l.bucket, p.limits)
  {
    var q :| q in peers && l.addr == Unmap(q.tunnelIP) && l.bucket == Limiter.New(q.limits, l.bucket.last);
    assert IsHost(q.tunnelIP) && q.tunnelIP == p.tunnelIP;
    var i :| 0 <= i < |peers| && peers[i] == p;
    var j :| 0 <= j < |peers| && peers[j] == q;
    assert i == j;
  }

  lemma SwapCarries(s: State, after: map<Addr, nat>, added: seq<Lim>, p: PeerConfig)
    requires MapsMatch(s) && Enabled(s, Swap(after, added)) && p in s.cur
    ensures var s' := Next(s, Swap(after, added));
            && p.tunnelIP in s'.inForce && s'.inForce[p.tunnelIP] < |s'.lims|
            && Carries(s'.lims[s'.inForce[p.tunnelIP]].bucket, p.limits)
  {
    var lims := s.lims + added;
    assert IsHost(p.tunnelIP) && Unmap(p.tunnelIP) == p.tunnelIP && p.tunnelIP in after.Keys;
    var l := after[p.tunnelIP];
    assert lims[l].addr == p.tunnelIP && KeyIn(lims)(l) == p.publicKey;
    hide Unmap;
    if l < |s.lims| {
      assert l in after.Values;
      RelimitedCarries(s.lims[l], s.cur, p);
    } else {
      assert added[l - |s.lims|] in added;
      BuiltCarries(added[l - |s.lims|], s.cur, p);
    }
  }

  lemma OthersKeepLimits(s: State, a: Step)
    requires Enabled(s, a) && !a.Handle? && !a.Swap? && !a.Publish?
    ensures var s' := Next(s, a);
            && s'.cur == s.cur && s'.inForce == s.inForce && |s'.lims| == |s.lims|
            && s'.watch.Stored? == s.watch.Stored?
            && forall l :: 0 <= l < |s.lims| ==> s'.lims[l].bucket == s.lims[l].bucket
  {
    hide ActEnabled, ActNext, BothSides;
  }

  lemma StepLimits(s: State, a: Step)
    requires MapsMatch(s) && LimitsMatch(s) && Enabled(s, a)
    ensures LimitsMatch(Next(s, a))
  {
    if a.Swap? {
      forall p | p in s.cur
        ensures var s' := Next(s, a);
                && p.tunnelIP in s'.inForce && s'.inForce[p.tunnelIP] < |s'.lims|
                && Carries(s'.lims[s'.inForce[p.tunnelIP]].bucket, p.limits)
      {
        SwapCarries(s, a.after, a.added, p);
      }
      assert Next(s, a).cur == s.cur;
      hide Next, Enabled, MapsMatch;
    } else if a.Handle? {
      OtherActs(s, a.i, a.act);
      LimitsKept(s, a.i, a.act);
      hide ActNext, ActEnabled, MapsMatch;
    } else if a.Publish? {
    } else {
      OthersKeepLimits(s, a);
      hide Next, Enabled, MapsMatch;
    }
  }

  /** No handler changes a limiter's limits. */
  lemma LimitsKept(s: State, i: nat, act: Act)
    requires i < |s.hs| && ActEnabled(s, i, act)
    ensures var s' := ActNext(s, i, act);
            |s'.lims| == |s.lims| && forall l, limits :: 0 <= l < |s.lims| && Carries(s.lims[l].bucket, limits) ==>
              Carries(s'.lims[l].bucket, limits)
  {
    if act.Acquire? {
      Limiter.AcquireSlots(s.lims[s.hs[i].lim].bucket, act.now);
      hide Limiter.TryAcquire;
    } else if act.Track? || act.DropOrphan? {
    } else if act.Unwind? {
      UnwindKeeps(s, i);
      hide ActNext, ActEnabled;
    } else {
      hide ActNext, ActEnabled;
      if IsPipe(act) {
        PipeFrame(s, i, act);
      } else {
        PlainFrame(s, i, act);
      }
    }
  }

  lemma UnwindKeeps(s: State, i: nat)
    requires i < |s.hs| && ActEnabled(s, i, Unwind)
    ensures var s' := ActNext(s, i, Unwind);
            |s'.lims| == |s.lims| && forall l, limits :: 0 <= l < |s.lims| && Carries(s.lims[l].bucket, limits) ==>
              Carries(s'.lims[l].bucket, limits)
  {
    var h, s' := s.hs[i], ActNext(s, i, Unwind);
    assert s'.lims == s.lims || (h.lim < |s.lims| && s'.lims == s.lims[h.lim := s'.lims[h.lim]]
                                 && s'.lims[h.lim].bucket.(active := 0) == s.lims[h.lim].bucket.(active := 0));
    hide ActNext, ActEnabled;
  }

  lemma {:induction false} RunLimits(s: State, run: seq<Step>)
    requires Inv(s) && LimitsMatch(s) && Legal(s, run)
    ensures LimitsMatch(After(s, run))
    decreases run
  {
    if run != [] {
      StepKeepsInv(s, run[0]);
      assert MapsMatch(s);
      hide Inv, LimitsMatch, MapsMatch, Next, Enabled;
      StepLimits(s, run[0]);
      RunLimits(Next(s, run[0]), run[1..]);
    }
  }

  /**
   Once the list last published has been refreshed, the limiter in force at a listed
   peer's address is that peer's own, with the peer's limits, whatever its history.
   */
  lemma ListedPeerHasLimiter(peers: seq<PeerConfig>, run: seq<Step>, p: PeerConfig)
    requires Reachable(peers, run)
    requires !After(Initial(peers), run).watch.Stored? && p in HandlerStories.Published(peers, run)
    ensures var s := After(Initial(peers), run);
            && p.tunnelIP in s.inForce && s.inForce[p.tunnelIP] < |s.lims|
            && var l := s.lims[s.inForce[p.tunnelIP]];
               && l.key == p.publicKey && l.addr == p.tunnelIP && l.bucket.maxConcurrent == p.limits.maxConcurrent
               && l.bucket.rate == l.bucket.burst == p.limits.dialsPerSecond as real
  {
    ReachableInv(peers, run);
    InitialInv(peers);
    HandlerStories.ListInForce(peers, run);
    RunLimits(Initial(peers), run);
    var s := After(Initial(peers), run);
    assert MapsMatch(s);
    hide Legal, After, Accepted, Inv;
    assert p.tunnelIP in s.inForce.Keys;
  }

  /** Nobody else has one: an address with a limiter in force is a listed peer's. */
  lemma OnlyListedHaveLimiters(peers: seq<PeerConfig>, run: seq<Step>, addr: Addr)
    requires Reachable(peers, run) && !After(Initial(peers), run).watch.Stored?
    requires addr in After(Initial(peers), run).inForce
    ensures exists p :: p in HandlerStories.Published(peers, run) && p.tunnelIP == addr
  {
    ReachableInv(peers, run);
    HandlerStories.ListInForce(peers, run);
    assert addr in After(Initial(peers), run).inForce.Keys;
  }
}
