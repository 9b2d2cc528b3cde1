/** What the steps of one connection handler leave alone. */
module HandlerFrames {
  import opened Prelude
  import opened Addresses
  import opened Peers
  import opened ServerProtocol
  import opened ServerTheorems
  import Limiter

  /** At or past registration: nothing is opened any more. */
  predicate Late(pc: Pc) {
    pc.Rechecking? || pc.Orphaned? || pc == Responding(true) || pc.Piping? || pc.Unwinding?
  }

  /** What any step of handler `j` leaves alone. */
  predicate Confined(s: State, j: nat, s': State)
    requires j < |s.hs|
  {
    && s' == s.(hs := s'.hs, lims := s'.lims, wg := s'.wg)
    && |s'.hs| == |s.hs| && s'.hs == s.hs[j := s'.hs[j]] && |s'.lims| == |s.lims|
    && forall l :: 0 <= l < |s.lims| ==> s.lims[l].live - {j} <= s'.lims[l].live
  }

  lemma LimiterFrame(s: State, j: nat, act: Act)
    requires j < |s.hs| && ActEnabled(s, j, act) && (act.Acquire? || act.Track? || act.DropOrphan?)
    ensures var s' := ActNext(s, j, act); Confined(s, j, s') && (act.DropOrphan? ==> s'.hs[j].pc.Unwinding?)
  {
    hide Limiter.TryAcquire;
  }

  lemma PipeFrame(s: State, j: nat, act: Act)
    requires j < |s.hs| && ActEnabled(s, j, act) && IsPipe(act)
    ensures var s' := ActNext(s, j, act);
            && Confined(s, j, s') && s'.lims == s.lims && (s'.hs[j].pc.Piping? || s'.hs[j].pc.Unwinding?)
            && (s'.hs[j].peerOpen ==> s.hs[j].peerOpen) && (s'.hs[j].backendOpen ==> s.hs[j].backendOpen)
  {
    hide Grants, Limiter.TryAcquire, Limiter.GiveBack, UnwindOne;
  }

  lemma UnwindShuts(s: State, j: nat)
    requires j < |s.hs| && ActEnabled(s, j, Unwind)
    ensures var s' := ActNext(s, j, Unwind);
            && s' == s.(hs := s'.hs, lims := s'.lims, wg := s'.wg)
            && |s'.hs| == |s.hs| && s'.hs == s.hs[j := s'.hs[j]] && s'.hs[j].pc.Unwinding?
            && (s'.hs[j].peerOpen ==> s.hs[j].peerOpen) && (s'.hs[j].backendOpen ==> s.hs[j].backendOpen)
  {
    var h, s' := s.hs[j], ActNext(s, j, Unwind);
    var last, h' := h.defers[|h.defers| - 1], h.(defers := h.defers[..|h.defers| - 1]);
    var g := if last.ClosePeer? then Shut(h', PeerSide) else if last.CloseBackend? then Shut(h', BackendSide) else h';
    hide Limiter.GiveBack;
    assert s' == s.(hs := s.hs[j := g], lims := s'.lims, wg := s'.wg);
    hide ActNext, UnwindOne, ActEnabled;
  }

  lemma UnwindLive(s: State, j: nat)
    requires j < |s.hs| && ActEnabled(s, j, Unwind)
    ensures var s' := ActNext(s, j, Unwind);
            |s'.lims| == |s.lims| && forall l :: 0 <= l < |s.lims| ==> s.lims[l].live - {j} <= s'.lims[l].live
  {
    hide Limiter.GiveBack;
    var h, s' := s.hs[j], ActNext(s, j, Unwind);
    var last := h.defers[|h.defers| - 1];
    assert s'.lims == s.lims || (h.lim < |s.lims| && s'.lims == s.lims[h.lim := s'.lims[h.lim]]
                                 && s.lims[h.lim].live - {j} <= s'.lims[h.lim].live);
  }

  lemma UnwindFrame(s: State, j: nat)
    requires j < |s.hs| && ActEnabled(s, j, Unwind)
    ensures var s' := ActNext(s, j, Unwind);
            && Confined(s, j, s') && s'.hs[j].pc.Unwinding?
            && (s'.hs[j].peerOpen ==> s.hs[j].peerOpen) && (s'.hs[j].backendOpen ==> s.hs[j].backendOpen)
  {
    UnwindShuts(s, j);
    UnwindLive(s, j);
    hide ActNext, ActEnabled;
  }

  lemma PlainFrame(s: State, j: nat, act: Act)
    requires j < |s.hs| && ActEnabled(s, j, act)
    requires !IsPipe(act) && !act.Unwind? && !act.Acquire? && !act.Track? && !act.DropOrphan?
    ensures var s' := ActNext(s, j, act);
            && Confined(s, j, s') && s'.lims == s.lims
            && (Late(s.hs[j].pc) ==>
                  && Late(s'.hs[j].pc) && !s.hs[j].pc.Unwinding?
                  && s'.hs[j].peerOpen == s.hs[j].peerOpen && s'.hs[j].backendOpen == s.hs[j].backendOpen)
  {
    hide Grants, Limiter.TryAcquire, Limiter.GiveBack, UnwindOne;
  }

  /** A late handler stays late, opens nothing, and leaves a live set only to unwind. */
  lemma LateActs(s: State, i: nat, act: Act)
    requires i < |s.hs| && ActEnabled(s, i, act) && Late(s.hs[i].pc)
    ensures var s' := ActNext(s, i, act);
            && Confined(s, i, s') && Late(s'.hs[i].pc)
            && (s.hs[i].pc.Unwinding? ==> s'.hs[i].pc.Unwinding?)
            && (s'.hs[i].pc.Unwinding? || s'.lims == s.lims)
            && (s'.hs[i].peerOpen ==> s.hs[i].peerOpen) && (s'.hs[i].backendOpen ==> s.hs[i].backendOpen)
  {
    if act.Acquire? || act.Track? || act.DropOrphan? {
      LimiterFrame(s, i, act);
      assert act.DropOrphan? && !s.hs[i].pc.Unwinding?;
      assert ActNext(s, i, act).hs[i] == s.hs[i].(pc := Unwinding);
    } else if IsPipe(act) {
      assert s.hs[i].pc.Piping?;
      hide ActNext, ActEnabled;
      PipeFrame(s, i, act);
    } else if act.Unwind? {
      hide ActNext, ActEnabled;
      UnwindFrame(s, i);
    } else {
      hide ActNext, ActEnabled;
      PlainFrame(s, i, act);
    }
  }

  lemma OtherActs(s: State, j: nat, act: Act)
    requires j < |s.hs| && ActEnabled(s, j, act)
    ensures Confined(s, j, ActNext(s, j, act))
  {
    hide ActNext, ActEnabled;
    if act.Acquire? || act.Track? || act.DropOrphan? {
      LimiterFrame(s, j, act);
    } else if IsPipe(act) {
      PipeFrame(s, j, act);
    } else if act.Unwind? {
      UnwindFrame(s, j);
    } else {
      PlainFrame(s, j, act);
    }
  }
}
