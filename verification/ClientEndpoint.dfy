/**
 Re-resolving the server's address while many goroutines dial. Dials share one
 address, a generation counter, the device's only peer, and a one-slot channel.
 */
module ClientEndpoint {
  import opened Prelude
  import opened Addresses
  import opened Device

  /** What never changes: key encoding, the server's key, and whether the endpoint is a literal address. */
  datatype Setup = Setup(hex: KeyCodec, serverKey: string, literal: bool)

  // --------------------------------------------------------------------
  // The fields and their methods
  // --------------------------------------------------------------------

  datatype Point = Point(addr: AddrPort, generation: nat)

  /** What a refresh does while it holds the slot, if nothing intervenes. */
  function Refreshed(su: Setup, p: Point, t: Table, generation: nat, answer: Option<AddrPort>,
                     fault: Option<nat>): (Point, Table, bool) {
    if p.generation != generation then (p, t, true)
    else match answer
      case None => (p, t, false)
      case Some(a) =>
        if a == p.addr then (Point(a, p.generation + 1), t, true)
        else
          var (t', ok) := SetPeerEndpoint(su.hex, t, su.serverKey, a, fault);
          if ok then (Point(a, p.generation + 1), t', true) else (p, t', false)
  }

  class Endpoint {
    var addr: AddrPort
    var generation: nat

    constructor (addr: AddrPort)
      ensures this.addr == addr && generation == 0
    {
      this.addr, generation := addr, 0;
    }

    method Current() returns (a: AddrPort, g: nat)
      ensures a == addr && g == generation
    {
      return addr, generation;
    }

    /** Counts lookups, whether or not the address changed. */
    method Applied(a: AddrPort)
      modifies this
      ensures addr == a && generation == old(generation) + 1
    {
      addr := a;
      generation := generation + 1;
    }

    method RefreshHeld(su: Setup, t: Table, recorded: nat, answer: Option<AddrPort>, fault: Option<nat>)
      returns (t': Table, ok: bool)
      modifies this
      ensures (Point(addr, generation), t', ok) ==
                Refreshed(su, old(Point(addr, generation)), t, recorded, answer, fault)
    {
      t' := t;
      var current, now := Current();
      if now != recorded {
        return t', true;
      }
      if answer.None? {
        return t', false;
      }
      if answer.value != current {
        var moved := SetPeerEndpoint(su.hex, t, su.serverKey, answer.value, fault);
        t' := moved.0;
        if !moved.1 {
          return t', false;
        }
      }
      Applied(answer.value);
      return t', true;
    }
  }

  // --------------------------------------------------------------------
  // Concurrent dials
  // --------------------------------------------------------------------

  datatype Pc =
    | Starting                    // generation not yet recorded
    | Attempting
    | Waiting                     // an attempt failed
    | Wanting                     // in refreshEndpoint, before the slot
    | Holding                     // slot taken
    | Resolving                   // generation unchanged, looking the name up
    | Found(answer: AddrPort)
    | Moved(answer: AddrPort)     // device points at the answer, not yet recorded
    | Leaving(ok: bool)           // slot about to be given back
    | Connected
    | Failed

  datatype Dial = Dial(pc: Pc, generation: nat, refreshed: bool)

  /** `log` lists the applied re-resolutions: which dial, and the generation it had recorded. */
  datatype State = State(point: Point, slot: nat, table: Table, dials: seq<Dial>, log: seq<(nat, nat)>)

  datatype Act =
    | Record | Succeed | Miss | BudgetDone | Retry | SkipLiteral | TakeSlot | StopWaiting
    | CheckGeneration | Lookup(answer: Option<AddrPort>) | MovePeer(fault: Option<nat>) | RecordApplied | GiveSlot

  datatype Step = NewDial | Do(i: nat, act: Act)

  predicate InSlot(d: Dial) {
    d.pc.Holding? || d.pc.Resolving? || d.pc.Found? || d.pc.Moved? || d.pc.Leaving?
  }

  predicate ActEnabled(su: Setup, s: State, i: nat, act: Act)
    requires i < |s.dials|
  {
    var d := s.dials[i];
    match act
    case Record => d.pc.Starting?
    case Succeed | Miss => d.pc.Attempting?
    case BudgetDone | Retry => d.pc.Waiting?
    case SkipLiteral => d.pc.Wanting? && su.literal
    case TakeSlot => d.pc.Wanting? && !su.literal && s.slot < 1
    case StopWaiting => d.pc.Wanting? && !su.literal
    case CheckGeneration => d.pc.Holding?
    case Lookup(_) => d.pc.Resolving?
    case MovePeer(_) => d.pc.Found?
    case RecordApplied => d.pc.Moved?
    case GiveSlot => d.pc.Leaving? && s.slot > 0
  }

  function With(s: State, i: nat, d: Dial): State
    requires i < |s.dials|
  {
    s.(dials := s.dials[i := d])
  }

  function ActNext(su: Setup, s: State, i: nat, act: Act): State
    requires i < |s.dials| && ActEnabled(su, s, i, act)
  {
    var d := s.dials[i];
    match act
    case Record => With(s, i, d.(pc := Attempting, generation := s.point.generation))
    case Succeed => With(s, i, d.(pc := Connected))
    case Miss => With(s, i, d.(pc := Waiting))
    case BudgetDone => With(s, i, d.(pc := Failed))
    case Retry => With(s, i, if d.refreshed then d.(pc := Attempting) else d.(pc := Wanting, refreshed := true))
    case SkipLiteral | StopWaiting => With(s, i, d.(pc := Attempting))
    case TakeSlot => With(s, i, d.(pc := Holding)).(slot := s.slot + 1)
    case CheckGeneration =>
      With(s, i, d.(pc := if s.point.generation != d.generation then Leaving(true) else Resolving))
    case Lookup(answer) => With(s, i, d.(pc := if answer.None? then Leaving(false) else Found(answer.value)))
    case MovePeer(fault) =>
      if d.pc.answer == s.point.addr then With(s, i, d.(pc := Moved(d.pc.answer)))
      else
        var (t, ok) := SetPeerEndpoint(su.hex, s.table, su.serverKey, d.pc.answer, fault);
        With(s, i, d.(pc := if ok then Moved(d.pc.answer) else Leaving(false))).(table := t)
    case RecordApplied =>
      With(s, i, d.(pc := Leaving(true))).(point := Point(d.pc.answer, s.point.generation + 1),
        log := s.log + [(i, d.generation)])
    case GiveSlot => With(s, i, d.(pc := if d.pc.ok then Attempting else Failed)).(slot := s.slot - 1)
  }

  predicate Enabled(su: Setup, s: State, a: Step) {
    a.Do? ==> a.i < |s.dials| && ActEnabled(su, s, a.i, a.act)
  }

  function Next(su: Setup, s: State, a: Step): State
    requires Enabled(su, s, a)
  {
    match a
    case NewDial => s.(dials := s.dials + [Dial(Starting, 0, false)])
    case Do(i, act) => ActNext(su, s, i, act)
  }

  predicate Legal(su: Setup, s: State, run: seq<Step>)
    decreases run
  {
    run == [] || (Enabled(su, s, run[0]) && Legal(su, Next(su, s, run[0]), run[1..]))
  }

  function After(su: Setup, s: State, run: seq<Step>): State
    requires Legal(su, s, run)
    decreases run
  {
    if run == [] then s else After(su, Next(su, s, run[0]), run[1..])
  }

  /** A client just built: one peer, pointing at the resolved address. */
  ghost predicate Fresh(su: Setup, s: State) {
    && WellFormed(s.table) && Points(su, s.table, s.point.addr)
    && s.point.generation == 0 && s.slot == 0 && s.dials == [] && s.log == []
  }

  predicate Points(su: Setup, t: Table, a: AddrPort) {
    su.hex(su.serverKey).Some? && su.hex(su.serverKey).value in t.peers
      && t.peers[su.hex(su.serverKey).value].endpoint == Some(a)
  }

  // --------------------------------------------------------------------
  // Invariant
  // --------------------------------------------------------------------

  function Occupying(): Dial -> bool {
    (d: Dial) => InSlot(d)
  }

  predicate Logged(s: State, i: nat) {
    exists k :: 0 <= k < |s.log| && s.log[k].0 == i
  }

  /** Still able to apply a re-resolution. */
  predicate MayApply(d: Dial) {
    !d.refreshed || d.pc.Wanting? || d.pc.Holding? || d.pc.Resolving? || d.pc.Found? || d.pc.Moved?
  }

  ghost predicate Slots(s: State) {
    s.slot == Count(s.dials, Occupying()) && s.slot <= 1
  }

  ghost predicate Dials(s: State) {
    forall i :: 0 <= i < |s.dials| ==>
      && (s.dials[i].pc.Resolving? || s.dials[i].pc.Found? || s.dials[i].pc.Moved? ==>
           s.dials[i].generation == s.point.generation)
      && (InSlot(s.dials[i]) || s.dials[i].pc.Wanting? ==> s.dials[i].refreshed)
      && (s.dials[i].pc.Starting? ==> !s.dials[i].refreshed)
      && (Logged(s, i) ==> !MayApply(s.dials[i]))
  }

  ghost predicate LogExact(s: State) {
    && |s.log| == s.point.generation
    && (forall k :: 0 <= k < |s.log| ==> s.log[k].1 == k && s.log[k].0 < |s.dials|)
    && (forall j, k :: 0 <= j < k < |s.log| ==> s.log[j].0 != s.log[k].0)
  }

  ghost predicate DevicePoints(su: Setup, s: State) {
    && WellFormed(s.table)
    && (forall i :: 0 <= i < |s.dials| && s.dials[i].pc.Moved? ==> Points(su, s.table, s.dials[i].pc.answer))
    && ((forall i :: 0 <= i < |s.dials| ==> !s.dials[i].pc.Moved?) ==> Points(su, s.table, s.point.addr))
    && su.hex(su.serverKey).Some? && su.hex(su.serverKey).value in s.table.peers
  }

  /** What no device fault can upset. */
  ghost predicate Inv(s: State) {
    Slots(s) && Dials(s) && LogExact(s)
  }

  lemma CountTwo(ds: seq<Dial>, i: nat, j: nat)
    requires i < j < |ds| && InSlot(ds[i]) && InSlot(ds[j])
    ensures Count(ds, Occupying()) >= 2
    decreases |ds|
  {
    var n := |ds| - 1;
    if j == n {
      CountPositive(ds[..n], i, Occupying());
    } else {
      CountTwo(ds[..n], i, j);
    }
  }

  /** The lines of an endpoint change: the key, update_only, the endpoint. */
  const ENDPOINT_LINES := 3

  /** Whoever holds the slot holds it alone. */
  lemma Alone(s: State, i: nat, j: nat)
    requires Slots(s) && i < |s.dials| && j < |s.dials| && InSlot(s.dials[i]) && InSlot(s.dials[j])
    ensures i == j
  {
    if i < j {
      CountTwo(s.dials, i, j);
    } else if j < i {
      CountTwo(s.dials, j, i);
    }
  }

  /** What SetPeerEndpoint leaves, whether it succeeds, refuses or fails part-way. */
  lemma MoveOutcome(su: Setup, t: Table, a: AddrPort, fault: Option<nat>, was: AddrPort)
    requires WellFormed(t) && Points(su, t, was) && (fault.Some? ==> fault.value < ENDPOINT_LINES)
    ensures var (t', ok) := SetPeerEndpoint(su.hex, t, su.serverKey, a, fault);
            WellFormed(t') && Points(su, t', if ok then a else was)
  {
    var k := su.hex(su.serverKey).value;
    if Dialable(a) {
      if fault.None? {
        EndpointMeaning(su.hex, t, su.serverKey, a);
      } else {
        var lines := [PublicKey(k), UpdateOnly, Device.Endpoint(a)];
        var n := fault.value;
        assert lines[..1] == [PublicKey(k)] && lines[..2] == [PublicKey(k), UpdateOnly] && lines[..0] == [];
        assert [PublicKey(k), UpdateOnly][1..] == [UpdateOnly] && [PublicKey(k)][1..] == [] && [UpdateOnly][1..] == [];
        var (t1, c1) := Feed(t, Dummy, PublicKey(k));
        assert t1 == t && c1 == At(k, false);
        assert FeedAll(t, c1, [UpdateOnly]) == t;
        assert FeedAll(t, Dummy, lines[..n]) == t;
      }
    }
  }

  lemma SlotsStep(su: Setup, s: State, i: nat, act: Act)
    requires Inv(s) && i < |s.dials| && ActEnabled(su, s, i, act)
    ensures Slots(ActNext(su, s, i, act))
  {
    var s' := ActNext(su, s, i, act);
    hide SetPeerEndpoint;
    CountUpdate(s.dials, i, s'.dials[i], Occupying());
  }

  /** Recording an applied re-resolution: only the recorder could still have relied on the old generation. */
  lemma RecordStep(su: Setup, s: State, i: nat)
    requires Inv(s) && i < |s.dials| && s.dials[i].pc.Moved?
    ensures Dials(ActNext(su, s, i, RecordApplied)) && LogExact(ActNext(su, s, i, RecordApplied))
  {
    var s' := ActNext(su, s, i, RecordApplied);
    assert !Logged(s, i);
    forall j | 0 <= j < |s.dials| && InSlot(s.dials[j]) ensures j == i {
      Alone(s, i, j);
    }
    hide Slots, SetPeerEndpoint;
    assert forall k :: 0 <= k < |s.log| ==> s'.log[k] == s.log[k];
    forall j | j != i && Logged(s', j) ensures Logged(s, j) {
      var k :| 0 <= k < |s'.log| && s'.log[k].0 == j;
      assert s.log[k].0 == j;
    }
  }

  lemma DialsStep(su: Setup, s: State, i: nat, act: Act)
    requires Inv(s) && i < |s.dials| && ActEnabled(su, s, i, act)
    ensures Dials(ActNext(su, s, i, act)) && LogExact(ActNext(su, s, i, act))
  {
    var s' := ActNext(su, s, i, act);
    hide SetPeerEndpoint, Slots;
    if act.RecordApplied? {
      RecordStep(su, s, i);
    } else {
      assert s'.log == s.log && s'.point == s.point;
      forall j | 0 <= j < |s.dials| ensures Logged(s', j) == Logged(s, j) {}
      hide Logged;
      assert forall j :: 0 <= j < |s.dials| && j != i ==> s'.dials[j] == s.dials[j];
    }
  }

  /** A device call that reports an error did not take its last line, the endpoint. */
  predicate EarlyFault(a: Step) {
    a.Do? && a.act.MovePeer? && a.act.fault.Some? ==> a.act.fault.value < ENDPOINT_LINES
  }

  lemma DeviceStep(su: Setup, s: State, i: nat, act: Act)
    requires Inv(s) && DevicePoints(su, s) && i < |s.dials| && ActEnabled(su, s, i, act) && EarlyFault(Do(i, act))
    ensures DevicePoints(su, ActNext(su, s, i, act))
  {
    var s' := ActNext(su, s, i, act);
    var d := s.dials[i];
    if InSlot(d) {
      forall j | 0 <= j < |s.dials| && s.dials[j].pc.Moved? ensures j == i {
        Alone(s, i, j);
      }
    }
    if act.MovePeer? {
      assert Points(su, s.table, s.point.addr);
      MoveOutcome(su, s.table, d.pc.answer, act.fault, s.point.addr);
    }
    hide SetPeerEndpoint, Slots, Dials, LogExact;
    assert forall j :: 0 <= j < |s.dials| && j != i ==> s'.dials[j] == s.dials[j];
    assert s'.dials[i].pc.Moved? || d.pc.Moved?
        || ((forall j :: 0 <= j < |s.dials| ==> !s'.dials[j].pc.Moved?) <==>
          (forall j :: 0 <= j < |s.dials| ==> !s.dials[j].pc.Moved?));
  }

  lemma StepInv(su: Setup, s: State, a: Step)
    requires Inv(s) && Enabled(su, s, a)
    ensures Inv(Next(su, s, a))
    ensures DevicePoints(su, s) && EarlyFault(a) ==> DevicePoints(su, Next(su, s, a))
  {
    match a
    case NewDial =>
      var s' := Next(su, s, a);
      CountAppend(s.dials, Dial(Starting, 0, false), Occupying());
      assert forall j :: Logged(s', j) == Logged(s, j);
      assert !Logged(s, |s.dials|);
      assert forall j :: 0 <= j < |s.dials| ==> s'.dials[j] == s.dials[j];
    case Do(i, act) =>
      SlotsStep(su, s, i, act);
      DialsStep(su, s, i, act);
      if DevicePoints(su, s) && EarlyFault(a) {
        DeviceStep(su, s, i, act);
      }
  }

  ghost predicate EarlyFaults(run: seq<Step>) {
    forall a :: a in run ==> EarlyFault(a)
  }

  /** Erring endpoint calls of the run stop where `faults` says, counted in lines taken. */
  predicate FaultsAmong(run: seq<Step>, faults: nat -> bool) {
    forall k :: 0 <= k < |run| && run[k].Do? && run[k].act.MovePeer? && run[k].act.fault.Some? ==>
      faults(run[k].act.fault.value)
  }

  lemma {:induction false} RunInv(su: Setup, s: State, run: seq<Step>)
    requires Inv(s) && Legal(su, s, run)
    ensures Inv(After(su, s, run))
    ensures DevicePoints(su, s) && EarlyFaults(run) ==> DevicePoints(su, After(su, s, run))
    decreases run
  {
    hide Inv, Enabled, Next, DevicePoints, EarlyFault;
    if run != [] {
      StepInv(su, s, run[0]);
      assert run[0] in run && forall a :: a in run[1..] ==> a in run;
      RunInv(su, Next(su, s, run[0]), run[1..]);
    }
  }

  // --------------------------------------------------------------------
  // Theorems over every interleaving of dials
  // --------------------------------------------------------------------

  lemma OneRefreshAtATime(su: Setup, s: State, run: seq<Step>, i: nat, j: nat)
    requires Fresh(su, s) && Legal(su, s, run)
    requires var t := After(su, s, run); i < |t.dials| && j < |t.dials| && InSlot(t.dials[i]) && InSlot(t.dials[j])
    ensures i == j
  {
    RunInv(su, s, run);
    Alone(After(su, s, run), i, j);
  }

  /** The n-th applied re-resolution was recorded at generation n, and each dial applied at most one. */
  lemma OneApplicationPerGeneration(su: Setup, s: State, run: seq<Step>)
    requires Fresh(su, s) && Legal(su, s, run)
    ensures var t := After(su, s, run);
            && t.point.generation == |t.log|
            && (forall k :: 0 <= k < |t.log| ==> t.log[k].1 == k)
            && (forall j, k :: 0 <= j < k < |t.log| ==> t.log[j].0 != t.log[k].0)
  {
    RunInv(su, s, run);
  }

  // Each dial refreshes at most once.

  predicate TakesSlot(a: Step, i: nat) {
    a.Do? && a.i == i && a.act.TakeSlot?
  }

  predicate LooksUp(a: Step, i: nat) {
    a.Do? && a.i == i && a.act.Lookup?
  }

  /** How often dial `i` took the slot in a run, and how often it looked the name up. */
  function Refreshes(run: seq<Step>, i: nat): (nat, nat) {
    if run == [] then (0, 0)
    else
      var (slots, lookups) := Refreshes(run[1..], i);
      (slots + if TakesSlot(run[0], i) then 1 else 0, lookups + if LooksUp(run[0], i) then 1 else 0)
  }

  predicate MayTakeSlot(s: State, i: nat) {
    i < |s.dials| ==> !s.dials[i].refreshed || s.dials[i].pc.Wanting?
  }

  predicate MayLookUp(s: State, i: nat) {
    MayTakeSlot(s, i) || s.dials[i].pc.Holding? || s.dials[i].pc.Resolving?
  }

  lemma {:induction false} RefreshesLeft(su: Setup, s: State, run: seq<Step>, i: nat)
    requires Inv(s) && Legal(su, s, run)
    ensures Refreshes(run, i).0 <= if MayTakeSlot(s, i) then 1 else 0
    ensures Refreshes(run, i).1 <= if MayLookUp(s, i) then 1 else 0
    decreases run
  {
    if run != [] {
      var t := Next(su, s, run[0]);
      StepInv(su, s, run[0]);
      RefreshesLeft(su, t, run[1..], i);
      SpendsRefresh(su, s, run[0], i);
    }
  }

  lemma SpendsRefresh(su: Setup, s: State, a: Step, i: nat)
    requires Inv(s) && Enabled(su, s, a)
    ensures var t := Next(su, s, a);
            && (TakesSlot(a, i) ==> MayTakeSlot(s, i) && !MayTakeSlot(t, i))
            && (LooksUp(a, i) ==> MayLookUp(s, i) && !MayLookUp(t, i))
            && (MayTakeSlot(t, i) ==> MayTakeSlot(s, i)) && (MayLookUp(t, i) ==> MayLookUp(s, i))
  {
    hide SetPeerEndpoint, Slots, LogExact, Logged;
  }

  /** A dial takes the refresh slot at most once, and looks the name up at most once, whatever comes of it. */
  lemma EachDialRefreshesOnce(su: Setup, s: State, run: seq<Step>, i: nat)
    requires Fresh(su, s) && Legal(su, s, run)
    ensures Refreshes(run, i).0 <= 1 && Refreshes(run, i).1 <= 1
  {
    RefreshesLeft(su, s, run, i);
  }

  /**
   With the slot free the device points exactly where the client says it does, if no
   erring call took the endpoint line.
   */
  lemma DeviceFollowsAddress(su: Setup, s: State, run: seq<Step>, faults: nat -> bool)
    requires Fresh(su, s) && Legal(su, s, run) && After(su, s, run).slot == 0
    requires FaultsAmong(run, faults) && forall n: nat :: faults(n) ==> n < ENDPOINT_LINES
    ensures var t := After(su, s, run); Points(su, t.table, t.point.addr)
  {
    assert EarlyFaults(run);
    RunInv(su, s, run);
    var t := After(su, s, run);
    forall i | 0 <= i < |t.dials| ensures !t.dials[i].pc.Moved? {
      if InSlot(t.dials[i]) {
        CountPositive(t.dials, i, Occupying());
      }
    }
  }

  lemma Prepend(su: Setup, s: State, a: Step, run: seq<Step>)
    requires Enabled(su, s, a) && Legal(su, Next(su, s, a), run)
    ensures Legal(su, s, [a] + run) && After(su, s, [a] + run) == After(su, Next(su, s, a), run)
  {
    assert ([a] + run)[0] == a && ([a] + run)[1..] == run;
  }

  lemma LateFaultMoves(su: Setup, t: Table, b: AddrPort, n: nat)
    requires WellFormed(t) && su.hex(su.serverKey).Some? && su.hex(su.serverKey).value in t.peers && Dialable(b)
               && n >= ENDPOINT_LINES
    ensures var (t', ok) := SetPeerEndpoint(su.hex, t, su.serverKey, b, Some(n)); Points(su, t', b) && !ok
  {
    EndpointMeaning(su.hex, t, su.serverKey, b);
  }

  /** The first dial of a fresh client, up to a successful lookup. */
  function LookedUp(s: State, b: AddrPort): State {
    s.(dials := [Dial(Found(b), 0, true)], slot := 1)
  }

  function Trying(s: State): State {
    s.(dials := [Dial(Wanting, 0, true)])
  }

  lemma ReachesWanting(su: Setup, s: State, rest: seq<Step>, faults: nat -> bool) returns (run: seq<Step>)
    requires Fresh(su, s) && Legal(su, Trying(s), rest) && FaultsAmong(rest, faults)
    ensures Legal(su, s, run) && After(su, s, run) == After(su, Trying(s), rest) && FaultsAmong(run, faults)
  {
    hide WellFormed, Points, SetPeerEndpoint;
    var s1 := Next(su, s, NewDial);
    var s2 := Next(su, s1, Do(0, Record));
    var s3 := Next(su, s2, Do(0, Miss));
    assert Next(su, s3, Do(0, Retry)) == Trying(s);
    hide Next, Enabled, Fresh, Legal, After, Trying;
    Prepend(su, s3, Do(0, Retry), rest);
    run := [Do(0, Retry)] + rest;
    Prepend(su, s2, Do(0, Miss), run);
    run := [Do(0, Miss)] + run;
    Prepend(su, s1, Do(0, Record), run);
    run := [Do(0, Record)] + run;
    Prepend(su, s, NewDial, run);
    run := [NewDial] + run;
  }

  lemma ReachesLookup(su: Setup, s: State, b: AddrPort, rest: seq<Step>, faults: nat -> bool) returns (run: seq<Step>)
    requires Fresh(su, s) && !su.literal && Legal(su, LookedUp(s, b), rest) && FaultsAmong(rest, faults)
    ensures Legal(su, s, run) && After(su, s, run) == After(su, LookedUp(s, b), rest) && FaultsAmong(run, faults)
  {
    hide WellFormed, Points, SetPeerEndpoint;
    var s4 := Trying(s);
    var s5 := Next(su, s4, Do(0, TakeSlot));
    var s6 := Next(su, s5, Do(0, CheckGeneration));
    assert Next(su, s6, Do(0, Lookup(Some(b)))) == LookedUp(s, b);
    hide Next, Enabled, Fresh, Legal, After, LookedUp, Trying;
    Prepend(su, s6, Do(0, Lookup(Some(b))), rest);
    run := [Do(0, Lookup(Some(b)))] + rest;
    Prepend(su, s5, Do(0, CheckGeneration), run);
    run := [Do(0, CheckGeneration)] + run;
    Prepend(su, s4, Do(0, TakeSlot), run);
    run := [Do(0, TakeSlot)] + run;
    run := ReachesWanting(su, s, run, faults);
  }

  /** An endpoint call that takes every line and then reports an error parts the device from the recorded address. */
  lemma LateFaultDiverges(su: Setup, s: State, b: AddrPort, n: nat, faults: nat -> bool) returns (run: seq<Step>)
    requires Fresh(su, s) && !su.literal && Dialable(b) && b != s.point.addr && n >= ENDPOINT_LINES && faults(n)
    ensures Legal(su, s, run) && FaultsAmong(run, faults)
    ensures var t := After(su, s, run); t.slot == 0 && t.point == s.point && Points(su, t.table, b)
  {
    LateFaultMoves(su, s.table, b, n);
    hide SetPeerEndpoint, Points, WellFormed;
    var s7 := LookedUp(s, b);
    var s8 := Next(su, s7, Do(0, MovePeer(Some(n))));
    var s9 := Next(su, s8, Do(0, GiveSlot));
    assert Legal(su, s9, []) && After(su, s9, []) == s9;
    Prepend(su, s8, Do(0, GiveSlot), []);
    Prepend(su, s7, Do(0, MovePeer(Some(n))), [Do(0, GiveSlot)] + []);
    run := ReachesLookup(su, s, b, [Do(0, MovePeer(Some(n)))] + ([Do(0, GiveSlot)] + []), faults);
  }

  /** Over every run of every fresh client in which erring endpoint calls stop where `faults` says. */
  ghost predicate AlwaysFollows(su: Setup, faults: nat -> bool) {
    forall s, run :: Fresh(su, s) && Legal(su, s, run) && FaultsAmong(run, faults) ==>
      var t := After(su, s, run); t.slot == 0 ==> Points(su, t.table, t.point.addr)
  }

  /** With a host name the device follows the address exactly when no erring call reaches the endpoint line. */
  lemma FollowsExactly(su: Setup, s: State, faults: nat -> bool)
    requires !su.literal && Fresh(su, s)
    ensures AlwaysFollows(su, faults) <==> forall n: nat :: faults(n) ==> n < ENDPOINT_LINES
  {
    hide Legal, After, Fresh, FaultsAmong, Points;
    if n: nat :| faults(n) && n >= ENDPOINT_LINES {
      var b := if s.point.addr == AddrPort(V4(1), 1) then AddrPort(V4(2), 1) else AddrPort(V4(1), 1);
      var run := LateFaultDiverges(su, s, b, n, faults);
      OnePoint(su, After(su, s, run).table, b, s.point.addr);
    } else {
      forall s, run | Fresh(su, s) && Legal(su, s, run) && FaultsAmong(run, faults) && After(su, s, run).slot == 0
        ensures Points(su, After(su, s, run).table, After(su, s, run).point.addr)
      {
        DeviceFollowsAddress(su, s, run, faults);
      }
    }
  }

  lemma OnePoint(su: Setup, t: Table, a: AddrPort, b: AddrPort)
    requires Points(su, t, a) && a != b
    ensures !Points(su, t, b)
  {
  }

  /** With a literal address nothing is ever looked up and the peer never moves. */
  lemma {:induction false} LiteralNeverMoves(su: Setup, s: State, run: seq<Step>)
    requires su.literal && Legal(su, s, run)
    requires forall i :: 0 <= i < |s.dials| ==> !InSlot(s.dials[i])
    ensures var t := After(su, s, run); t.point == s.point && t.table == s.table && t.slot == s.slot && t.log == s.log
    decreases run
  {
    if run != [] {
      LiteralNeverMoves(su, Next(su, s, run[0]), run[1..]);
    }
  }

  /** The holder's steps up to giving the slot back, other dials' steps left out. */
  function HolderRuns(su: Setup, s: State, i: nat, answer: Option<AddrPort>, fault: Option<nat>): State
    requires i < |s.dials| && s.dials[i].pc.Holding?
  {
    var s1 := ActNext(su, s, i, CheckGeneration);
    if s1.dials[i].pc.Leaving? then s1 else
    var s2 := ActNext(su, s1, i, Lookup(answer));
    if s2.dials[i].pc.Leaving? then s2 else
    var s3 := ActNext(su, s2, i, MovePeer(fault));
    if s3.dials[i].pc.Leaving? then s3 else
    ActNext(su, s3, i, RecordApplied)
  }

  /** Step by step, the holder computes what RefreshHeld computes in one call. */
  lemma HolderRefines(su: Setup, s: State, i: nat, answer: Option<AddrPort>, fault: Option<nat>)
    requires i < |s.dials| && s.dials[i].pc.Holding?
    ensures var t := HolderRuns(su, s, i, answer, fault);
            && (t.point, t.table, t.dials[i].pc) ==
               (var (p, table, ok) := Refreshed(su, s.point, s.table, s.dials[i].generation, answer, fault);
                 (p, table, Leaving(ok)))
            && (t.log != s.log <==> t.point.generation != s.point.generation)
  {
    hide SetPeerEndpoint;
    if s.point.generation == s.dials[i].generation && answer.Some? {
      var s2 := ActNext(su, ActNext(su, s, i, CheckGeneration), i, Lookup(answer));
      assert s2.dials[i].pc == Found(answer.value) && s2.point == s.point && s2.table == s.table && s2.log == s.log;
      FoundRefines(su, s2, i, fault);
    }
  }

  lemma FoundRefines(su: Setup, s: State, i: nat, fault: Option<nat>)
    requires i < |s.dials| && s.dials[i].pc.Found?
    ensures var a, s3 := s.dials[i].pc.answer, ActNext(su, s, i, MovePeer(fault));
            var t := if s3.dials[i].pc.Leaving? then s3 else ActNext(su, s3, i, RecordApplied);
            && (t.point, t.table, t.dials[i].pc) ==
               (var (p, table, ok) := Refreshed(su, s.point, s.table, s.point.generation, Some(a), fault);
                 (p, table, Leaving(ok)))
            && (t.log != s.log <==> t.point.generation != s.point.generation)
  {
    hide SetPeerEndpoint;
  }
}
