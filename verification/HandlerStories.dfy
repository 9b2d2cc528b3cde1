/**
 What a connection handler does from accept to proxying, in terms of the steps of
 the run: which lists were published, who connected, and what each handler did.
 */
module HandlerStories {
  import opened Prelude
  import opened Addresses
  import opened Peers
  import opened ServerProtocol
  import opened ServerInvariant
  import opened ServerTheorems
  import HandlerFrames
  import Limiter

  // --------------------------------------------------------------------
  // What a run tells
  // --------------------------------------------------------------------

  /** The list in force: the last one published, or the one the server started with. */
  function Published(peers: seq<PeerConfig>, run: seq<Step>): seq<PeerConfig> {
    if run == [] then peers
    else
      var last := run[|run| - 1];
      if last.Publish? then last.next else Published(peers, run[..|run| - 1])
  }

  function Accepts(run: seq<Step>): nat {
    if run == [] then 0 else Accepts(run[..|run| - 1]) + if run[|run| - 1].Accept? then 1 else 0
  }

  /** Where the connection of handler `i` came from. */
  function CameFrom(run: seq<Step>, i: nat): Option<Addr> {
    if run == [] then None
    else
      var before, last := run[..|run| - 1], run[|run| - 1];
      if last.Accept? && Accepts(before) == i then Some(last.addr) else CameFrom(before, i)
  }

  /** What handler `i` did, in order. */
  function Acts(run: seq<Step>, i: nat): seq<Act> {
    if run == [] then []
    else
      var before, last := run[..|run| - 1], run[|run| - 1];
      if last.Handle? && last.i == i then Acts(before, i) + [last.act] else Acts(before, i)
  }

  /** Some peer of the list has this address, in either spelling, and is granted the service. */
  predicate Listed(peers: seq<PeerConfig>, from: Option<Addr>, service: string) {
    from.Some? && exists p :: p in peers && p.tunnelIP == Unmap(from.value) && service in p.allow
  }

  lemma {:induction false} Unsnoc(s: State, run: seq<Step>, a: Step)
    requires Legal(s, run + [a])
    ensures Legal(s, run) && Enabled(After(s, run), a) && After(s, run + [a]) == Next(After(s, run), a)
    decreases run
  {
    hide Enabled, Next;
    if run == [] {
      assert (run + [a])[0] == a && (run + [a])[1..] == [];
    } else {
      assert (run + [a])[0] == run[0] && (run + [a])[1..] == run[1..] + [a];
      Unsnoc(Next(s, run[0]), run[1..], a);
    }
  }

  lemma {:induction false} PrefixReachable(peers: seq<PeerConfig>, run: seq<Step>, k: nat)
    requires Reachable(peers, run) && k <= |run|
    ensures Reachable(peers, run[..k])
    decreases |run| - k
  {
    if k < |run| {
      PrefixReachable(peers, run, k + 1);
      assert run[..k + 1] == run[..k] + [run[k]];
      Unsnoc(Initial(peers), run[..k], run[k]);
    } else {
      assert run[..k] == run;
    }
  }

  /** With distinct addresses the policy grants what the peer at the address is granted. */
  lemma GrantsExactly(peers: seq<PeerConfig>, addr: Addr, service: string)
    requires Accepted(peers)
    ensures Grants(peers, Unmap(addr), service) <==> Listed(peers, Some(addr), service)
  {
    var input := PolicyInput(peers);
    forall p | p in peers ensures Unmap(p.tunnelIP) == p.tunnelIP {
      assert IsHost(p.tunnelIP);
    }
    assert DistinctAddresses(input) by {
      assert forall i :: 0 <= i < |peers| ==> peers[i] in peers;
    }
    assert Unmap(Unmap(addr)) == Unmap(addr);
    hide Search, Unmap, Accepted, DistinctAddresses;
    if i :| 0 <= i < |peers| && peers[i].tunnelIP == Unmap(addr) {
      SearchFinds(input, i, Unmap(addr), service);
      forall p | p in peers && p.tunnelIP == Unmap(addr) && service in p.allow ensures service in peers[i].allow {
        var j :| 0 <= j < |peers| && peers[j] == p;
        SearchFinds(input, j, Unmap(addr), service);
      }
    } else {
      SearchMisses(input, Unmap(addr), service);
    }
  }

  // --------------------------------------------------------------------
  // What a handler's position says about its past
  // --------------------------------------------------------------------

  /** The acts of a connection that gets all the way, one by one. */
  predicate OnPath(k: nat, act: Act) {
    match k
    case 0 => act.Lookup?
    case 1 => act.Acquire?
    case 2 => act.Hello? && act.result.Service?
    case 3 => act.ResolveService?
    case 4 => act == Dial(true)
    case 5 => act.Track?
    case 6 => act.Recheck?
    case 7 => act == Respond(true)
    case _ => false
  }

  predicate Along(acts: seq<Act>, n: nat) {
    n <= |acts| && forall k :: 0 <= k < n ==> OnPath(k, acts[k])
  }

  /** Refused for its limits, for a malformed hello, for lack of a grant, or for lack of a backend. */
  predicate Refused(acts: seq<Act>) {
    || (|acts| == 2 && Along(acts, 2))
    || (|acts| == 3 && Along(acts, 2) && acts[2] == Hello(Malformed))
    || (|acts| == 4 && Along(acts, 4))
    || (|acts| == 5 && Along(acts, 4) && acts[4] == Dial(false))
  }

  predicate Admitted(acts: seq<Act>) {
    |acts| == 7 && Along(acts, 7)
  }

  predicate Told(pc: Pc, acts: seq<Act>) {
    match pc
    case Fresh => acts == []
    case Known => |acts| == 1 && Along(acts, 1)
    case ReadingHello => |acts| == 2 && Along(acts, 2)
    case Resolving(name) => |acts| == 3 && Along(acts, 3) && acts[2] == Hello(Service(name))
    case Dialing => |acts| == 4 && Along(acts, 4)
    case Tracking => |acts| == 5 && Along(acts, 5)
    case Rechecking => |acts| == 6 && Along(acts, 6)
    case Orphaned => Admitted(acts)
    case Responding(ok) => if ok then Admitted(acts) else Refused(acts)
    case Piping(_, _) => Along(acts, 8)
    case Unwinding => true
  }

  lemma AlongOne(acts: seq<Act>, n: nat, act: Act)
    requires |acts| == n && Along(acts, n)
    ensures Along(acts + [act], n)
    ensures OnPath(n, act) ==> Along(acts + [act], n + 1)
  {
    hide OnPath;
  }

  /** A handler's step changes that handler, keeps its address, and publishes nothing. */
  predicate OwnMove(s: State, i: nat, s': State)
    requires i < |s.hs|
  {
    |s'.hs| == |s.hs| && s'.hs == s.hs[i := s'.hs[i]] && s'.hs[i].addr == s.hs[i].addr && s'.cur == s.cur
  }

  predicate TouchesLimiter(act: Act) {
    act.Acquire? || act.Track? || act.DropOrphan?
  }

  lemma LimiterActs(s: State, i: nat, act: Act, acts: seq<Act>)
    requires i < |s.hs| && ActEnabled(s, i, act) && TouchesLimiter(act) && Told(s.hs[i].pc, acts)
    ensures OwnMove(s, i, ActNext(s, i, act)) && Told(ActNext(s, i, act).hs[i].pc, acts + [act])
  {
    hide Limiter.TryAcquire, Along;
    AlongOne(acts, |acts|, act);
  }

  lemma PipeActs(s: State, i: nat, act: Act, acts: seq<Act>)
    requires i < |s.hs| && ActEnabled(s, i, act) && IsPipe(act) && Told(s.hs[i].pc, acts)
    ensures OwnMove(s, i, ActNext(s, i, act)) && Told(ActNext(s, i, act).hs[i].pc, acts + [act])
  {
    hide Along, Grants, Limiter.TryAcquire, Limiter.GiveBack, UnwindOne;
    StaysAlong(acts, act);
  }

  lemma UnwindActs(s: State, i: nat, acts: seq<Act>)
    requires i < |s.hs| && ActEnabled(s, i, Unwind)
    ensures OwnMove(s, i, ActNext(s, i, Unwind)) && ActNext(s, i, Unwind).hs[i].pc.Unwinding?
  {
    hide Limiter.GiveBack;
  }

  lemma EarlyActs(s: State, i: nat, act: Act, acts: seq<Act>)
    requires i < |s.hs| && ActEnabled(s, i, act) && Told(s.hs[i].pc, acts)
    requires act.NoAddress? || act.Lookup? || act.Hello? || act.ResolveService?
    ensures OwnMove(s, i, ActNext(s, i, act)) && Told(ActNext(s, i, act).hs[i].pc, acts + [act])
  {
    hide Along, Grants, Limiter.TryAcquire, Limiter.GiveBack, UnwindOne;
    NothingYet(acts);
    AlongOne(acts, |acts|, act);
  }

  lemma LateActs(s: State, i: nat, act: Act, acts: seq<Act>)
    requires i < |s.hs| && ActEnabled(s, i, act) && Told(s.hs[i].pc, acts)
    requires act.Dial? || act.Recheck? || act.Respond?
    ensures OwnMove(s, i, ActNext(s, i, act)) && Told(ActNext(s, i, act).hs[i].pc, acts + [act])
  {
    hide Along, Grants, Limiter.TryAcquire, Limiter.GiveBack, UnwindOne;
    if Along(acts, |acts|) {
      AlongOne(acts, |acts|, act);
    }
  }

  lemma ToldStep(s: State, i: nat, act: Act, acts: seq<Act>)
    requires i < |s.hs| && ActEnabled(s, i, act) && Told(s.hs[i].pc, acts)
    ensures OwnMove(s, i, ActNext(s, i, act)) && Told(ActNext(s, i, act).hs[i].pc, acts + [act])
  {
    if act.Unwind? {
      UnwindActs(s, i, acts);
      hide ActNext, ActEnabled;
    } else {
      hide *;
      if IsPipe(act) {
        PipeActs(s, i, act, acts);
      } else if TouchesLimiter(act) {
        LimiterActs(s, i, act, acts);
      } else {
        Others(act);
        if act.Dial? || act.Recheck? || act.Respond? {
          LateActs(s, i, act, acts);
        } else {
          EarlyActs(s, i, act, acts);
        }
      }
    }
  }

  lemma Others(act: Act)
    requires !act.Unwind? && !IsPipe(act) && !TouchesLimiter(act)
    ensures act.NoAddress? || act.Lookup? || act.Hello? || act.ResolveService? || act.Dial? || act.Recheck?
      || act.Respond?
  {
  }

  lemma NothingYet(acts: seq<Act>)
    ensures Along(acts, 0)
  {
  }

  lemma StaysAlong(acts: seq<Act>, act: Act)
    requires Along(acts, 8)
    ensures Along(acts + [act], 8)
  {
    hide OnPath;
  }

  // --------------------------------------------------------------------
  // The story of one handler, step by step
  // --------------------------------------------------------------------

  /** Every answer is a refusal in its place, or the OK of an admitted connection. */
  predicate AnswersInPlace(acts: seq<Act>) {
    forall k :: 0 <= k < |acts| && acts[k].Respond? ==> Refused(acts[..k]) || Admitted(acts[..k])
  }

  /** At `k` the handler resolved the service it had read, and the list in force granted it. */
  predicate GrantedAt(peers: seq<PeerConfig>, run: seq<Step>, i: nat, k: nat)
    requires k < |run|
  {
    var acts := Acts(run[..k], i);
    && run[k] == Handle(i, ResolveService)
    && |acts| == 3 && OnPath(2, acts[2])
    && Listed(Published(peers, run[..k]), CameFrom(run[..k], i), acts[2].result.name)
  }

  predicate WasGranted(peers: seq<PeerConfig>, run: seq<Step>, i: nat) {
    exists k :: 0 <= k < |run| && GrantedAt(peers, run, i, k)
  }

  /** Past the grant check, whatever became of it since. */
  predicate Dialled(h: Handler, acts: seq<Act>) {
    h.pc.Dialing? || Dial(true) in acts || Dial(false) in acts
  }

  ghost predicate Story(peers: seq<PeerConfig>, run: seq<Step>, i: nat, s: State) {
    && s.cur == Published(peers, run) && |s.hs| == Accepts(run)
    && if i < |s.hs| then
         && CameFrom(run, i).Some? && s.hs[i].addr == Unmap(CameFrom(run, i).value)
         && Told(s.hs[i].pc, Acts(run, i)) && AnswersInPlace(Acts(run, i))
         && (Dialled(s.hs[i], Acts(run, i)) ==> WasGranted(peers, run, i))
       else Acts(run, i) == []
  }

  /** One more step, as the run tells it. */
  lemma Tells(peers: seq<PeerConfig>, run: seq<Step>, a: Step, i: nat)
    ensures Published(peers, run + [a]) == if a.Publish? then a.next else Published(peers, run)
    ensures Accepts(run + [a]) == Accepts(run) + if a.Accept? then 1 else 0
    ensures CameFrom(run + [a], i) == if a.Accept? && Accepts(run) == i then Some(a.addr) else CameFrom(run, i)
    ensures Acts(run + [a], i) == if a.Handle? && a.i == i then Acts(run, i) + [a.act] else Acts(run, i)
  {
    assert (run + [a])[..|run|] == run;
  }

  lemma StillGranted(peers: seq<PeerConfig>, run: seq<Step>, a: Step, i: nat)
    requires WasGranted(peers, run, i)
    ensures WasGranted(peers, run + [a], i)
  {
    hide Listed;
    var k :| 0 <= k < |run| && GrantedAt(peers, run, i, k);
    assert (run + [a])[..k] == run[..k];
    assert GrantedAt(peers, run + [a], i, k);
  }

  lemma AnswerStep(pc: Pc, acts: seq<Act>, act: Act)
    requires Told(pc, acts) && AnswersInPlace(acts) && (act.Respond? ==> pc.Responding?)
    ensures AnswersInPlace(acts + [act])
  {
    assert forall k :: 0 <= k < |acts| ==> (acts + [act])[..k] == acts[..k];
    assert (acts + [act])[..|acts|] == acts;
    hide Along;
  }

  lemma ResolveMoves(s: State, i: nat)
    requires i < |s.hs| && ActEnabled(s, i, ResolveService)
    ensures var s' := ActNext(s, i, ResolveService);
            i < |s'.hs| && s'.hs[i].pc == if Grants(s.cur, s.hs[i].addr, s.hs[i].pc.service) then Dialing
              else Responding(false)
  {
    hide Grants;
  }

  lemma OnlyResolving(acts: seq<Act>, act: Act)
    requires Told(Dialing, acts + [act])
    ensures act.ResolveService?
  {
    assert OnPath(3, (acts + [act])[3]);
  }

  lemma DialStep(s: State, i: nat, act: Act, acts: seq<Act>)
    requires i < |s.hs| && ActEnabled(s, i, act) && Told(s.hs[i].pc, acts)
    requires i < |ActNext(s, i, act).hs| && Dialled(ActNext(s, i, act).hs[i], acts + [act])
    ensures Dialled(s.hs[i], acts)
      || (act.ResolveService? && s.hs[i].pc.Resolving? && Grants(s.cur, s.hs[i].addr, s.hs[i].pc.service))
  {
    ToldStep(s, i, act, acts);
    assert act.Dial? ==> s.hs[i].pc.Dialing?;
    hide ActNext, Grants, Told;
    if ActNext(s, i, act).hs[i].pc.Dialing? {
      OnlyResolving(acts, act);
      ResolveMoves(s, i);
    }
  }

  /** Nobody else moves a handler on, or changes where it came from. */
  lemma OthersLeave(s: State, a: Step)
    requires Enabled(s, a) && !a.Handle?
    ensures var s' := Next(s, a);
            && |s'.hs| == |s.hs| + (if a.Accept? then 1 else 0)
            && s'.cur == (if a.Publish? then a.next else s.cur)
            && (a.Accept? ==> s'.hs[|s.hs|].pc.Fresh? && s'.hs[|s.hs|].addr == Unmap(a.addr))
            && forall i :: 0 <= i < |s.hs| ==> s'.hs[i].pc == s.hs[i].pc && s'.hs[i].addr == s.hs[i].addr
  {
    hide SwapAllowed, RelimitedAll, BothSides, ActEnabled, ActNext;
    var s' := Next(s, a);
    assert s'.hs == if a.DrainClose? || a.ReapClose? then s.hs[a.c.h := Shut(s.hs[a.c.h], a.c.side)]
        else if a.Accept? then s.hs + [s'.hs[|s.hs|]] else s.hs;
    assert s'.cur == if a.Publish? then a.next else s.cur;
    assert a.Accept? ==> s'.hs[|s.hs|].pc.Fresh? && s'.hs[|s.hs|].addr == Unmap(a.addr);
    hide Next, Enabled;
  }

  lemma OwnStory(peers: seq<PeerConfig>, run: seq<Step>, i: nat, act: Act, s: State)
    requires Story(peers, run, i, s) && Accepted(s.cur) && i < |s.hs| && ActEnabled(s, i, act)
    ensures Story(peers, run + [Handle(i, act)], i, ActNext(s, i, act))
  {
    var acts, run' := Acts(run, i), run + [Handle(i, act)];
    Tells(peers, run, Handle(i, act), i);
    ToldStep(s, i, act, acts);
    assert act.Respond? ==> s.hs[i].pc.Responding?;
    AnswerStep(s.hs[i].pc, acts, act);
    if Dialled(ActNext(s, i, act).hs[i], acts + [act]) {
      DialStep(s, i, act, acts);
      if Dialled(s.hs[i], acts) {
        StillGranted(peers, run, Handle(i, act), i);
      } else {
        GrantsExactly(s.cur, CameFrom(run, i).value, s.hs[i].pc.service);
        assert run'[..|run|] == run;
        assert GrantedAt(peers, run', i, |run|);
      }
    }
    hide ActNext, ActEnabled, Told, AnswersInPlace, WasGranted, Dialled, Accepted;
  }

  lemma StoryStep(peers: seq<PeerConfig>, run: seq<Step>, a: Step, i: nat, s: State)
    requires Story(peers, run, i, s) && Accepted(s.cur) && Enabled(s, a)
    ensures Story(peers, run + [a], i, Next(s, a))
  {
    Tells(peers, run, a, i);
    if a.Handle? && a.i == i {
      OwnStory(peers, run, i, a.act, s);
      hide Story;
    } else if a.Handle? {
      HandlerFrames.OtherActs(s, a.i, a.act);
      if WasGranted(peers, run, i) {
        StillGranted(peers, run, a, i);
      }
      hide ActNext, ActEnabled, Told, AnswersInPlace, WasGranted, Accepted;
    } else {
      OthersLeave(s, a);
      if WasGranted(peers, run, i) {
        StillGranted(peers, run, a, i);
      }
      hide Next, Enabled, WasGranted, Accepted;
    }
  }

  lemma {:induction false} Stories(peers: seq<PeerConfig>, run: seq<Step>, i: nat)
    requires Reachable(peers, run)
    ensures Story(peers, run, i, After(Initial(peers), run)) && Accepted(After(Initial(peers), run).cur)
    decreases |run|
  {
    ReachableInv(peers, run);
    assert Accepted(After(Initial(peers), run).cur);
    if run != [] {
      var before, a := run[..|run| - 1], run[|run| - 1];
      assert run == before + [a];
      Unsnoc(Initial(peers), before, a);
      Stories(peers, before, i);
      hide Story, Inv, Legal, Accepted, Enabled, Next;
      StoryStep(peers, before, a, i, After(Initial(peers), before));
    }
  }

  // --------------------------------------------------------------------
  // Theorems over every reachable run
  // --------------------------------------------------------------------

  /** The list the server consults is the one last published. */
  lemma ListInForce(peers: seq<PeerConfig>, run: seq<Step>)
    requires Reachable(peers, run)
    ensures After(Initial(peers), run).cur == Published(peers, run)
  {
    Stories(peers, run, 0);
  }

  /**
   A handler that is dialling, or has dialled, resolved the service it had read while the
   list in force granted that service to the peer its connection came from.
   */
  lemma DialledWasGranted(peers: seq<PeerConfig>, run: seq<Step>, i: nat)
    requires Reachable(peers, run) && i < |After(Initial(peers), run).hs|
    requires Dialled(After(Initial(peers), run).hs[i], Acts(run, i))
    ensures exists k, name :: 0 <= k < |run|
              && run[k] == Handle(i, ResolveService) && Hello(Service(name)) in Acts(run[..k], i)
              && Listed(Published(peers, run[..k]), CameFrom(run[..k], i), name)
  {
    Stories(peers, run, i);
    hide Listed, Told;
    var k :| 0 <= k < |run| && GrantedAt(peers, run, i, k);
    assert Hello(Service(Acts(run[..k], i)[2].result.name)) in Acts(run[..k], i);
  }

  /** Proxying, registering, re-checking or answering OK, a handler has dialled. */
  lemma BeyondHasDialled(peers: seq<PeerConfig>, run: seq<Step>, i: nat)
    requires Reachable(peers, run) && i < |After(Initial(peers), run).hs|
    requires var pc := After(Initial(peers), run).hs[i].pc;
             pc.Tracking? || pc.Rechecking? || pc.Orphaned? || pc == Responding(true) || pc.Piping?
    ensures Dial(true) in Acts(run, i)
  {
    Stories(peers, run, i);
    var acts := Acts(run, i);
    assert Along(acts, 5);
    assert OnPath(4, acts[4]);
  }

  lemma AskedIs(acts: seq<Act>, service: string, name: string)
    requires Told(Resolving(service), acts) && Hello(Service(name)) in acts
    ensures name == service
  {
    assert OnPath(0, acts[0]) && OnPath(1, acts[1]);
  }

  /** Resolving, a handler goes on to dial if the list in force grants what it read, and else to refuse. */
  lemma GrantDecides(peers: seq<PeerConfig>, run: seq<Step>, i: nat, name: string)
    requires Reachable(peers, run + [Handle(i, ResolveService)]) && Hello(Service(name)) in Acts(run, i)
    ensures var s := After(Initial(peers), run + [Handle(i, ResolveService)]);
            && i < |s.hs|
            && if Listed(Published(peers, run), CameFrom(run, i), name) then
                 ActEnabled(s, i, Dial(true)) && ActEnabled(s, i, Dial(false))
               else ActEnabled(s, i, Respond(false)) && !ActEnabled(s, i, Dial(true)) && !ActEnabled(s, i, Dial(false))
  {
    var s := Initial(peers);
    Unsnoc(s, run, Handle(i, ResolveService));
    assert Reachable(peers, run);
    Stories(peers, run, i);
    var t := After(s, run);
    assert ActEnabled(t, i, ResolveService);
    hide Legal, After, Accepted, Enabled;
    GrantedOnward(peers, run, i, name, t);
  }

  lemma GrantedOnward(peers: seq<PeerConfig>, run: seq<Step>, i: nat, name: string, t: State)
    requires Story(peers, run, i, t) && Accepted(t.cur) && i < |t.hs| && ActEnabled(t, i, ResolveService)
    requires Hello(Service(name)) in Acts(run, i)
    ensures var s := ActNext(t, i, ResolveService);
            && i < |s.hs|
            && if Listed(Published(peers, run), CameFrom(run, i), name) then
                 ActEnabled(s, i, Dial(true)) && ActEnabled(s, i, Dial(false))
               else ActEnabled(s, i, Respond(false)) && !ActEnabled(s, i, Dial(true)) && !ActEnabled(s, i, Dial(false))
  {
    ResolveMoves(t, i);
    assert t.hs[i].pc.Resolving?;
    hide Listed, Grants, Accepted, Told, ActNext;
    AskedIs(Acts(run, i), t.hs[i].pc.service, name);
    GrantsExactly(t.cur, CameFrom(run, i).value, name);
  }

  /** A handler answers only to refuse in its place or to admit; in every other case it is silent. */
  lemma AnswersExactly(peers: seq<PeerConfig>, run: seq<Step>, i: nat, k: nat)
    requires Reachable(peers, run) && k < |Acts(run, i)| && Acts(run, i)[k].Respond?
    ensures Refused(Acts(run, i)[..k]) || Admitted(Acts(run, i)[..k])
  {
    Stories(peers, run, i);
  }

  /** A proxied connection was admitted, dialled, registered, re-checked and answered, in that order. */
  lemma ProxiedInOrder(peers: seq<PeerConfig>, run: seq<Step>, i: nat)
    requires Reachable(peers, run) && i < |After(Initial(peers), run).hs|
    requires After(Initial(peers), run).hs[i].pc.Piping?
    ensures Along(Acts(run, i), 8)
  {
    Stories(peers, run, i);
  }

  /** A connection refused for its limits, for a malformed hello or for lack of a backend is answered. */
  lemma RefusalsAnswered(s: State, i: nat, act: Act)
    requires i < |s.hs| && ActEnabled(s, i, act)
    requires act == Hello(Malformed) || act == Dial(false)
               || (act.Acquire? && !Limiter.TryAcquire(s.lims[s.hs[i].lim].bucket, act.now).1.Admitted?)
    ensures var t := ActNext(s, i, act);
              i < |t.hs| && ActEnabled(t, i, Respond(false)) && (t.hs[i].peerOpen ==> ActEnabled(t, i, Respond(true)))
  {
    hide Limiter.TryAcquire;
  }

  // --------------------------------------------------------------------
  // A granted peer can be served
  // --------------------------------------------------------------------

  lemma {:induction false} Snoc(s: State, run: seq<Step>, a: Step)
    requires Legal(s, run) && Enabled(After(s, run), a)
    ensures Legal(s, run + [a]) && After(s, run + [a]) == Next(After(s, run), a)
    decreases run
  {
    hide Enabled, Next;
    if run == [] {
      assert (run + [a])[0] == a && (run + [a])[1..] == [];
    } else {
      assert (run + [a])[0] == run[0] && (run + [a])[1..] == run[1..] + [a];
      Snoc(Next(s, run[0]), run[1..], a);
    }
  }

  /** Handler `i` is at `pc`, with maps and list as they were in `s`. */
  predicate Arrived(s: State, t: State, i: nat, addr: Addr, pc: Pc) {
    && i < |t.hs| && t.hs[i].addr == addr && t.hs[i].pc == pc && t.hs[i].peerOpen
    && t.inForce == s.inForce && t.cur == s.cur && |t.lims| == |s.lims|
    && addr in s.inForce && s.inForce[addr] < |s.lims|
    && (if pc.Fresh? then t.lims == s.lims
        else t.hs[i].lim == s.inForce[addr] && (pc.Known? ==> t.lims == s.lims))
  }

  lemma AdmitStep(s: State, t: State, i: nat, addr: Addr, now: real)
    requires Arrived(s, t, i, addr, Known)
    requires Limiter.TryAcquire(s.lims[s.inForce[addr]].bucket, now).1.Admitted?
    ensures ActEnabled(t, i, Acquire(now)) && Arrived(s, ActNext(t, i, Acquire(now)), i, addr, ReadingHello)
  {
    hide Limiter.TryAcquire;
  }

  lemma HelloStep(s: State, t: State, i: nat, addr: Addr, name: string)
    requires Arrived(s, t, i, addr, ReadingHello)
    ensures ActEnabled(t, i, Hello(Service(name)))
    ensures Arrived(s, ActNext(t, i, Hello(Service(name))), i, addr, Resolving(name))
  {
  }

  lemma GrantStep(s: State, t: State, i: nat, addr: Addr, name: string)
    requires Arrived(s, t, i, addr, Resolving(name)) && Grants(s.cur, addr, name)
    ensures ActEnabled(t, i, ResolveService) && Arrived(s, ActNext(t, i, ResolveService), i, addr, Pc.Dialing)
  {
    hide Grants;
  }

  lemma RegisterSteps(s: State, t: State, i: nat, addr: Addr)
    ensures Arrived(s, t, i, addr, Pc.Dialing) ==>
              ActEnabled(t, i, Dial(true)) && Arrived(s, ActNext(t, i, Dial(true)), i, addr, Tracking)
    ensures Arrived(s, t, i, addr, Tracking) ==>
              ActEnabled(t, i, Track) && Arrived(s, ActNext(t, i, Track), i, addr, Rechecking)
  {
  }

  lemma AnswerSteps(s: State, t: State, i: nat, addr: Addr)
    ensures Arrived(s, t, i, addr, Rechecking) ==>
              ActEnabled(t, i, Recheck) && Arrived(s, ActNext(t, i, Recheck), i, addr, Responding(true))
    ensures Arrived(s, t, i, addr, Responding(true)) ==>
              && ActEnabled(t, i, Respond(true))
              && Arrived(s, ActNext(t, i, Respond(true)), i, addr, Piping(Copying, Copying))
  {
  }

  lemma AcceptSteps(s: State, addr: Addr)
    requires s.run.Serving? && Unmap(addr) == addr && addr in s.inForce && s.inForce[addr] < |s.lims|
    ensures var i, t := |s.hs|, Next(s, Accept(addr));
            && Arrived(s, t, i, addr, Fresh)
            && ActEnabled(t, i, Act.Lookup) && Arrived(s, ActNext(t, i, Act.Lookup), i, addr, Known)
  {
  }

  /** One act more. */
  lemma Onward(s: State, run: seq<Step>, i: nat, act: Act)
    requires Legal(s, run) && i < |After(s, run).hs| && ActEnabled(After(s, run), i, act)
    ensures Legal(s, run + [Handle(i, act)])
    ensures After(s, run + [Handle(i, act)]) == ActNext(After(s, run), i, act)
  {
    hide ActEnabled, ActNext, Legal, After;
    Snoc(s, run, Handle(i, act));
  }

  lemma ReachesDialing(s: State, addr: Addr, name: string, now: real) returns (more: seq<Step>)
    requires s.run.Serving? && Unmap(addr) == addr && addr in s.inForce && s.inForce[addr] < |s.lims|
    requires Limiter.TryAcquire(s.lims[s.inForce[addr]].bucket, now).1.Admitted? && Grants(s.cur, addr, name)
    ensures Legal(s, more) && Arrived(s, After(s, more), |s.hs|, addr, Pc.Dialing)
  {
    var i := |s.hs|;
    AcceptSteps(s, addr);
    Snoc(s, [], Accept(addr));
    hide *;
    more := [] + [Accept(addr)];
    Onward(s, more, i, Act.Lookup);
    more := more + [Handle(i, Act.Lookup)];
    AdmitStep(s, After(s, more), i, addr, now);
    InRange(s, After(s, more), i, addr, Known);
    Onward(s, more, i, Acquire(now));
    more := more + [Handle(i, Acquire(now))];
    HelloStep(s, After(s, more), i, addr, name);
    InRange(s, After(s, more), i, addr, ReadingHello);
    Onward(s, more, i, Hello(Service(name)));
    more := more + [Handle(i, Hello(Service(name)))];
    GrantStep(s, After(s, more), i, addr, name);
    InRange(s, After(s, more), i, addr, Resolving(name));
    Onward(s, more, i, ResolveService);
    more := more + [Handle(i, ResolveService)];
  }

  lemma InRange(s: State, t: State, i: nat, addr: Addr, pc: Pc)
    requires Arrived(s, t, i, addr, pc)
    ensures i < |t.hs|
  {
  }

  lemma ReachesPiping(s: State, before: seq<Step>, i: nat, addr: Addr) returns (more: seq<Step>)
    requires Legal(s, before) && Arrived(s, After(s, before), i, addr, Pc.Dialing)
    ensures Legal(s, more) && Arrived(s, After(s, more), i, addr, Piping(Copying, Copying))
  {
    hide *;
    more := before;
    RegisterSteps(s, After(s, more), i, addr);
    InRange(s, After(s, more), i, addr, Pc.Dialing);
    Onward(s, more, i, Dial(true));
    more := more + [Handle(i, Dial(true))];
    RegisterSteps(s, After(s, more), i, addr);
    InRange(s, After(s, more), i, addr, Tracking);
    Onward(s, more, i, Track);
    more := more + [Handle(i, Track)];
    AnswerSteps(s, After(s, more), i, addr);
    InRange(s, After(s, more), i, addr, Rechecking);
    Onward(s, more, i, Recheck);
    more := more + [Handle(i, Recheck)];
    AnswerSteps(s, After(s, more), i, addr);
    InRange(s, After(s, more), i, addr, Responding(true));
    Onward(s, more, i, Respond(true));
    more := more + [Handle(i, Respond(true))];
  }

  /**
   Whatever has happened so far: while the server serves and its maps are those of the
   list, a new connection from a listed peer that its limiter admits can be proxied to
   any service the peer is granted.
   */
  lemma GrantedPeerCanBeServed(peers: seq<PeerConfig>, run: seq<Step>, p: PeerConfig, name: string, now: real)
    returns (more: seq<Step>)
    requires Reachable(peers, run)
    requires var s := After(Initial(peers), run);
             && s.run.Serving? && !s.watch.Stored? && p in Published(peers, run) && name in p.allow
             && p.tunnelIP in s.inForce && s.inForce[p.tunnelIP] < |s.lims|
             && Limiter.TryAcquire(s.lims[s.inForce[p.tunnelIP]].bucket, now).1.Admitted?
    ensures var s := After(Initial(peers), run);
            Legal(s, more) && |s.hs| < |After(s, more).hs| && After(s, more).hs[|s.hs|].pc == Piping(Copying, Copying)
  {
    Stories(peers, run, 0);
    var s, addr := After(Initial(peers), run), p.tunnelIP;
    assert IsHost(addr) && Unmap(addr) == addr;
    GrantsExactly(s.cur, addr, name);
    hide Legal, After, Grants, Story, Accepted, Limiter.TryAcquire;
    var before := ReachesDialing(s, addr, name, now);
    more := ReachesPiping(s, before, |s.hs|, addr);
  }
}
