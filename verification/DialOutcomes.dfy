/**
 How each dial of the client ends, over every interleaving of dials, in terms of
 what the dial itself did and met.
 */
module DialOutcomes {
  import opened Prelude
  import opened Addresses
  import opened Device
  import opened ClientEndpoint

  // --------------------------------------------------------------------
  // Runs, from their end
  // --------------------------------------------------------------------

  lemma {:induction false} Unsnoc(su: Setup, s: State, run: seq<Step>, a: Step)
    requires Legal(su, s, run + [a])
    ensures Legal(su, s, run) && Enabled(su, After(su, s, run), a)
    ensures After(su, s, run + [a]) == Next(su, After(su, s, run), a)
    decreases run
  {
    hide Enabled, Next;
    if run == [] {
      assert (run + [a])[0] == a && (run + [a])[1..] == [];
    } else {
      assert (run + [a])[0] == run[0] && (run + [a])[1..] == run[1..] + [a];
      Unsnoc(su, Next(su, s, run[0]), run[1..], a);
    }
  }

  lemma {:induction false} PrefixLegal(su: Setup, s: State, run: seq<Step>, k: nat)
    requires Legal(su, s, run) && k <= |run|
    ensures Legal(su, s, run[..k])
    decreases |run| - k
  {
    if k < |run| {
      PrefixLegal(su, s, run, k + 1);
      assert run[..k + 1] == run[..k] + [run[k]];
      Unsnoc(su, s, run[..k], run[k]);
    } else {
      assert run[..k] == run;
    }
  }

  // --------------------------------------------------------------------
  // When a refresh breaks
  // --------------------------------------------------------------------

  /** The device call for the dial's answer: needed, and refused or erring. */
  predicate CallBreaks(s: State, a: Step, i: nat, answer: AddrPort) {
    a.Do? && a.i == i && a.act.MovePeer? && answer != s.point.addr && (a.act.fault.Some? || !Dialable(answer))
  }

  /** The dial's own lookup had no answer, or its own device call was refused or erred. */
  ghost predicate Broke(su: Setup, s: State, run: seq<Step>, i: nat) {
    || Do(i, Lookup(None)) in run
    || exists k, answer :: 0 <= k < |run| && BrokeAt(su, s, run, i, k, answer)
  }

  ghost predicate BrokeAt(su: Setup, s: State, run: seq<Step>, i: nat, k: nat, answer: AddrPort)
    requires k < |run|
  {
    && Legal(su, s, run[..k]) && Do(i, Lookup(Some(answer))) in run[..k]
    && CallBreaks(After(su, s, run[..k]), run[k], i, answer)
  }

  lemma BrokeStep(su: Setup, s: State, run: seq<Step>, a: Step, i: nat)
    requires Legal(su, s, run)
    ensures Broke(su, s, run + [a], i) <==>
            || Broke(su, s, run, i) || a == Do(i, Lookup(None))
            || exists answer :: Do(i, Lookup(Some(answer))) in run && CallBreaks(After(su, s, run), a, i, answer)
  {
    hide Legal, After, CallBreaks;
    var all := run + [a];
    forall k, answer | 0 <= k < |run| ensures BrokeAt(su, s, all, i, k, answer) == BrokeAt(su, s, run, i, k, answer) {
      assert all[..k] == run[..k];
    }
    assert all[..|run|] == run;
    forall answer
      ensures BrokeAt(su, s, all, i, |run|, answer) <==>
                Do(i, Lookup(Some(answer))) in run && CallBreaks(After(su, s, run), a, i, answer)
    {
    }
    hide BrokeAt;
    assert forall b :: b in all <==> b in run || b == a;
    if answer :| Do(i, Lookup(Some(answer))) in run && CallBreaks(After(su, s, run), a, i, answer) {
      assert BrokeAt(su, s, all, i, |run|, answer);
    }
  }

  // --------------------------------------------------------------------
  // What a dial's position says about its past
  // --------------------------------------------------------------------

  ghost predicate Looked(run: seq<Step>, i: nat) {
    exists answer :: Do(i, Lookup(answer)) in run
  }

  /** What the run holds of dial `i`, and whether its refresh broke. */
  datatype Past = Past(broke: bool, spent: bool, connected: bool, gave: bool, missed: bool, looked: bool)

  ghost function PastOf(su: Setup, s: State, run: seq<Step>, i: nat): Past {
    Past(Broke(su, s, run, i), Do(i, BudgetDone) in run, Do(i, Succeed) in run, Do(i, GiveSlot) in run,
      Do(i, Miss) in run, Looked(run, i))
  }

  predicate Consistent(d: Dial, p: Past) {
    && (d.refreshed || d.pc.Waiting? ==> p.missed) && (InSlot(d) || d.pc.Wanting? ==> d.refreshed)
    && (p.connected <==> d.pc.Connected?)
    && (p.spent ==> d.pc.Failed?)
    && (p.broke ==> d.pc == Leaving(false) || (d.pc.Failed? && p.gave))
    && (d.pc == Leaving(false) ==> p.broke)
    && (d.pc.Failed? ==> p.spent || p.broke)
    && (InSlot(d) || d.pc.Wanting? || !d.refreshed ==> !p.gave)
    && (d.pc.Holding? || d.pc.Resolving? || d.pc.Wanting? || !d.refreshed ==> !p.looked)
  }

  ghost predicate Story(su: Setup, s: State, run: seq<Step>, i: nat)
    requires Legal(su, s, run)
  {
    var t, p := After(su, s, run), PastOf(su, s, run, i);
    if i < |t.dials| then
      && Consistent(t.dials[i], p)
      && (t.dials[i].pc.Found? ==> Do(i, Lookup(Some(t.dials[i].pc.answer))) in run)
      && (forall a, b :: Do(i, Lookup(a)) in run && Do(i, Lookup(b)) in run ==> a == b)
    else p == Past(false, false, false, false, false, false)
  }

  lemma MoveReport(su: Setup, t: Table, a: AddrPort, fault: Option<nat>)
    requires su.hex(su.serverKey).Some?
    ensures SetPeerEndpoint(su.hex, t, su.serverKey, a, fault).1 <==> fault.None? && Dialable(a)
  {
    hide FeedAll;
  }

  /** One act of the dial, as its past records it. */
  ghost predicate Records(s: State, d: Dial, act: Act, p: Past, p': Past) {
    && (p'.broke <==>
          || p.broke || act == Lookup(None)
          || (d.pc.Found? && act.MovePeer? && CallBreaks(s, Do(0, act), 0, d.pc.answer)))
    && (p'.spent <==> p.spent || act == BudgetDone) && (p'.connected <==> p.connected || act == Succeed)
    && (p'.gave <==> p.gave || act == GiveSlot) && (p'.missed <==> p.missed || act == Miss)
    && (p'.looked <==> p.looked || act.Lookup?)
  }

  lemma ActStory(su: Setup, s: State, i: nat, act: Act, p: Past, p': Past)
    requires i < |s.dials| && ActEnabled(su, s, i, act) && su.hex(su.serverKey).Some?
    requires Consistent(s.dials[i], p) && Records(s, s.dials[i], act, p, p')
    ensures i < |ActNext(su, s, i, act).dials| && Consistent(ActNext(su, s, i, act).dials[i], p')
  {
    if act.MovePeer? {
      MoveReport(su, s.table, s.dials[i].pc.answer, act.fault);
    }
    hide SetPeerEndpoint;
  }

  lemma OwnAct(su: Setup, s: State, run: seq<Step>, i: nat, act: Act)
    requires Legal(su, s, run) && Story(su, s, run, i) && i < |After(su, s, run).dials|
    requires ActEnabled(su, After(su, s, run), i, act)
    ensures Records(After(su, s, run), After(su, s, run).dials[i], act, PastOf(su, s, run, i),
              PastOf(su, s, run + [Do(i, act)], i))
  {
    BrokeStep(su, s, run, Do(i, act), i);
    var t := After(su, s, run);
    hide Broke, Legal, After, Consistent, Dialable;
    assert forall b :: b in run + [Do(i, act)] <==> b in run || b == Do(i, act);
    if act.MovePeer? {
      assert forall answer :: Do(i, Lookup(Some(answer))) in run ==> answer == t.dials[i].pc.answer;
    }
  }

  /** A step of anyone else is no part of dial `i`'s past. */
  lemma OthersAct(su: Setup, s: State, run: seq<Step>, a: Step, i: nat)
    requires Legal(su, s, run) && (a.Do? ==> a.i != i)
    ensures PastOf(su, s, run + [a], i) == PastOf(su, s, run, i)
  {
    BrokeStep(su, s, run, a, i);
    hide Broke, Legal, After;
    assert forall b :: b in run + [a] <==> b in run || b == a;
  }

  lemma StoryStep(su: Setup, s: State, run: seq<Step>, a: Step, i: nat)
    requires Legal(su, s, run + [a]) && su.hex(su.serverKey).Some?
    requires Legal(su, s, run) && Story(su, s, run, i)
    ensures Story(su, s, run + [a], i)
  {
    Unsnoc(su, s, run, a);
    var t, t' := After(su, s, run), After(su, s, run + [a]);
    assert forall b :: b in run + [a] <==> b in run || b == a;
    if a.Do? && a.i == i {
      OwnAct(su, s, run, i, a.act);
      ActStory(su, t, i, a.act, PastOf(su, s, run, i), PastOf(su, s, run + [a], i));
      OwnLookup(su, t, i, a.act);
      assert Consistent(t.dials[i], PastOf(su, s, run, i));
      hide Broke, Legal, After, ActNext, Records;
    } else {
      OthersAct(su, s, run, a, i);
      OthersDial(su, t, a, i);
      hide Broke, Legal, After, PastOf, Next;
    }
  }

  lemma OwnLookup(su: Setup, s: State, i: nat, act: Act)
    requires i < |s.dials| && ActEnabled(su, s, i, act)
    ensures var t := ActNext(su, s, i, act);
            && |t.dials| == |s.dials|
            && (t.dials[i].pc.Found? ==> act == Lookup(Some(t.dials[i].pc.answer)))
            && (act.Lookup? ==> s.dials[i].pc.Resolving?)
  {
    hide SetPeerEndpoint;
  }

  lemma OthersDial(su: Setup, s: State, a: Step, i: nat)
    requires Enabled(su, s, a) && (a.Do? ==> a.i != i)
    ensures var t := Next(su, s, a);
            && |s.dials| <= |t.dials| && (i < |s.dials| ==> t.dials[i] == s.dials[i])
            && (|s.dials| <= i < |t.dials| ==> t.dials[i] == Dial(Starting, 0, false))
  {
    hide SetPeerEndpoint;
  }

  lemma {:induction false} Stories(su: Setup, s: State, run: seq<Step>, i: nat)
    requires Fresh(su, s) && Legal(su, s, run)
    ensures Story(su, s, run, i)
    decreases |run|
  {
    if run != [] {
      var before, a := run[..|run| - 1], run[|run| - 1];
      assert run == before + [a];
      Unsnoc(su, s, before, a);
      Stories(su, s, before, i);
      hide Story, Legal;
      StoryStep(su, s, before, a, i);
    }
  }

  // --------------------------------------------------------------------
  // Theorems over every interleaving of dials
  // --------------------------------------------------------------------

  /** A dial fails exactly when its budget ran out or its own refresh broke, and the slot was given back. */
  lemma FailsExactly(su: Setup, s: State, run: seq<Step>, i: nat)
    requires Fresh(su, s) && Legal(su, s, run) && i < |After(su, s, run).dials|
    ensures After(su, s, run).dials[i].pc.Failed? <==>
              Do(i, BudgetDone) in run || (Broke(su, s, run, i) && Do(i, GiveSlot) in run)
  {
    Stories(su, s, run, i);
  }

  /** A dial connects exactly by an attempt that succeeded, and then its refresh had not broken. */
  lemma ConnectsExactly(su: Setup, s: State, run: seq<Step>, i: nat)
    requires Fresh(su, s) && Legal(su, s, run) && i < |After(su, s, run).dials|
    ensures After(su, s, run).dials[i].pc.Connected? <==> Do(i, Succeed) in run
    ensures Do(i, Succeed) in run ==> !Broke(su, s, run, i)
  {
    Stories(su, s, run, i);
  }

  lemma {:induction false} BrokeStays(su: Setup, s: State, run: seq<Step>, k: nat, m: nat, i: nat)
    requires Legal(su, s, run) && k <= m <= |run| && Broke(su, s, run[..k], i)
    ensures Broke(su, s, run[..m], i)
    decreases m
  {
    if k < m {
      BrokeStays(su, s, run, k, m - 1, i);
      PrefixLegal(su, s, run, m - 1);
      assert run[..m] == run[..m - 1] + [run[m - 1]];
      BrokeStep(su, s, run[..m - 1], run[m - 1], i);
    }
  }

  /** A dial whose refresh broke gives the slot back and does nothing else: no further attempt, no connection. */
  lemma BrokenDialStops(su: Setup, s: State, run: seq<Step>, k: nat, m: nat, i: nat, act: Act)
    requires Fresh(su, s) && Legal(su, s, run) && k <= m < |run| && Broke(su, s, run[..k], i)
    requires run[m] == Do(i, act)
    ensures act == GiveSlot
  {
    BrokeStays(su, s, run, k, m, i);
    PrefixLegal(su, s, run, m);
    PrefixLegal(su, s, run, m + 1);
    assert run[..m + 1] == run[..m] + [run[m]];
    Unsnoc(su, s, run[..m], run[m]);
    Stories(su, s, run[..m], i);
    hide Broke, Legal, After;
  }

  /**
   Giving the slot back after a refresh that applied an answer, or was spared one, the
   dial goes on to its next attempt; otherwise it has failed.
   */
  lemma RefreshedDialAttempts(su: Setup, s: State, run: seq<Step>, i: nat)
    requires Fresh(su, s) && Legal(su, s, run + [Do(i, GiveSlot)])
    requires Legal(su, s, run)
    ensures var t := After(su, s, run + [Do(i, GiveSlot)]);
            i < |t.dials| && if Broke(su, s, run, i) then t.dials[i].pc.Failed?
              else ActEnabled(su, t, i, Succeed) && ActEnabled(su, t, i, Miss)
  {
    Stories(su, s, run, i);
    Unsnoc(su, s, run, Do(i, GiveSlot));
    hide Broke, Legal;
  }

  /** The name is looked up, and the slot asked for, only after the dial's own attempt failed. */
  lemma LooksUpAfterMiss(su: Setup, s: State, run: seq<Step>, k: nat, i: nat, act: Act)
    requires Fresh(su, s) && Legal(su, s, run) && k < |run| && run[k] == Do(i, act)
    requires act.TakeSlot? || act.Lookup? || act.MovePeer?
    ensures Do(i, Miss) in run[..k]
  {
    PrefixLegal(su, s, run, k);
    PrefixLegal(su, s, run, k + 1);
    assert run[..k + 1] == run[..k] + [run[k]];
    Unsnoc(su, s, run[..k], run[k]);
    Stories(su, s, run[..k], i);
    hide Broke, Legal, After;
  }
}
