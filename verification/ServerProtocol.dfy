/**
 The serving path under hot reload and shutdown, as a machine of atomic steps.

 Goroutines: one per connection handler, the watcher that applies reloads, and
 Run itself. A step is one critical section, one close, or one blocking call
 returning. Handlers and limiters are numbered as they are created, so a
 limiter's number is its identity across a reload. Deferred calls are explicit
 stacks, pushed in source order and popped from the end.
 */
module ServerProtocol {
  import opened Prelude
  import opened Addresses
  import opened Peers
  import Limiter

  datatype Side = PeerSide | BackendSide

  datatype Direction = FromPeer | ToPeer

  /** One io.Copy goroutine: copying, ended with closes to make, returned. */
  datatype Copy = Copying | Closing | Finished

  datatype Defer = WgDone | ClosePeer | Release | CloseBackend | Untrack

  /** The deferred calls of a handler that got all the way, in order of registration. */
  const STACK := [WgDone, ClosePeer, Release, CloseBackend, Untrack]

  datatype Pc =
    | Fresh                          // identity not yet derived
    | Known                          // limiterFor found the limiter
    | ReadingHello                   // holds a concurrency slot
    | Resolving(service: string)
    | Dialing
    | Tracking                       // backend open, not yet registered
    | Rechecking                     // registered, authorization not yet re-checked
    | Orphaned                       // re-check failed, registration to be withdrawn
    | Responding(ok: bool)
    | Piping(fromPeer: Copy, toPeer: Copy)
    | Unwinding                      // only deferred calls left

  datatype Handler = Handler(addr: Addr, lim: nat, pc: Pc, defers: seq<Defer>, peerOpen: bool, backendOpen: bool)

  /** `peak` is the largest max_concurrent ever applied to the limiter. */
  datatype Lim = Lim(addr: Addr, key: string, bucket: Limiter.Bucket, peak: int, live: set<nat>)

  datatype Close = Close(h: nat, side: Side)

  /** The watcher goroutine, inside and between reloads. */
  datatype Watch =
    | Idle
    | Stored                                          // new list published, refreshPeers not begun
    | Refreshing(gone: set<nat>, closing: set<Close>) // maps swapped, departed limiters being reaped
    | Applying                                        // applyDiff on the device
    | Exited

  datatype RunDefer = CloseWatcher | CloseDevice | Drain | AwaitWatcher | CancelContext

  const RUN_STACK := [CloseWatcher, CloseDevice, Drain, AwaitWatcher, CancelContext]

  datatype RunPc =
    | Starting
    | Serving
    | Returning(defers: seq<RunDefer>)
    | DrainingAll(defers: seq<RunDefer>, todo: set<nat>, closing: set<Close>)

  datatype State = State(
    hs: seq<Handler>, lims: seq<Lim>, inForce: map<Addr, nat>, cur: seq<PeerConfig>,
    cancelled: bool, wg: int, watch: Watch, run: RunPc, deviceOpen: bool, timedOut: bool)

  datatype HelloResult = Service(name: string) | Malformed | NoHello

  datatype Act =
    | NoAddress | Lookup | Acquire(now: real) | Hello(result: HelloResult) | ResolveService | Dial(connected: bool)
    | Track | Recheck | DropOrphan | Respond(written: bool)
    | CopyEnd(dir: Direction) | CopyClose(side: Side) | CopyReturn(dir: Direction)
    | ContextClose(side: Side) | PipeReturn
    | Unwind

  datatype Step =
    | Accept(addr: Addr) | Cancel | Listen | AcceptFails | RunDeferred
    | DrainLimiter(l: nat) | DrainClose(c: Close) | DrainDone | DrainTimeout
    | Publish(next: seq<PeerConfig>) | Swap(after: map<Addr, nat>, added: seq<Lim>)
    | ReapLimiter(l: nat) | ReapClose(c: Close) | RefreshDone | ApplyDone | WatcherExit | WatcherCancel
    | Handle(i: nat, act: Act)

  // --------------------------------------------------------------------
  // Rebuilding the limiter map
  // --------------------------------------------------------------------

  /**
   Same public key at the same address keeps its limiter; every other listed
   address gets one that was not in force before.
   */
  ghost predicate Refreshes<L>(before: map<Addr, L>, after: map<Addr, L>, peers: seq<PeerConfig>, keyOf: L -> string) {
    && after.Keys == (set p | p in peers :: Unmap(p.tunnelIP))
    && (forall p :: p in peers ==>
          var ip := Unmap(p.tunnelIP);
          && keyOf(after[ip]) == p.publicKey
          && if ip in before && keyOf(before[ip]) == p.publicKey then after[ip] == before[ip]
               else after[ip] !in before.Values)
  }

  function KeyIn(lims: seq<Lim>): nat -> string {
    (l: nat) => if l < |lims| then lims[l].key else ""
  }

  function LimitsAt(peers: seq<PeerConfig>, addr: Addr, key: string): Option<Limiter.Limits> {
    if peers == [] then None
    else if peers[0].tunnelIP == addr && peers[0].publicKey == key then Some(peers[0].limits)
    else LimitsAt(peers[1..], addr, key)
  }

  /** A limiter that survives a reload takes the peer's new limits at once. */
  function Relimited(l: Lim, peers: seq<PeerConfig>): Lim {
    match LimitsAt(peers, l.addr, l.key)
    case None => l
    case Some(limits) =>
      l.(bucket := Limiter.WithLimits(l.bucket, limits), peak := Limiter.MaxInt(l.peak, limits.maxConcurrent))
  }

  /** Only limiters in force take new limits: a departed one keeps what it had. */
  function RelimitedAll(lims: seq<Lim>, kept: set<nat>, peers: seq<PeerConfig>): seq<Lim> {
    seq(|lims|, l requires 0 <= l < |lims| => if l in kept then Relimited(lims[l], peers) else lims[l])
  }

  /** A limiter just built for some listed peer, with nothing running on it. */
  predicate BuiltFor(l: Lim, peers: seq<PeerConfig>) {
    exists p :: p in peers && l.addr == Unmap(p.tunnelIP) && l.key == p.publicKey
             && l.bucket == Limiter.New(p.limits, l.bucket.last) && l.peak == p.limits.maxConcurrent && l.live == {}
  }

  /** The atomic rebuild under the server's lock. */
  ghost predicate SwapAllowed(s: State, after: map<Addr, nat>, added: seq<Lim>) {
    var lims := s.lims + added;
    && Refreshes(s.inForce, after, s.cur, KeyIn(lims))
    && (forall l :: l in added ==> BuiltFor(l, s.cur))
    && (forall a :: a in after ==>
         && after[a] < |lims| && lims[after[a]].addr == a
         && (after[a] < |s.lims| ==> after[a] in s.inForce.Values))
  }

  // --------------------------------------------------------------------
  // Steps
  // --------------------------------------------------------------------

  function BothSides(hs: set<nat>): set<Close> {
    (set h | h in hs :: Close(h, PeerSide)) + set h | h in hs :: Close(h, BackendSide)
  }

  function Shut(h: Handler, side: Side): Handler {
    if side.PeerSide? then h.(peerOpen := false) else h.(backendOpen := false)
  }

  predicate IsOpen(h: Handler, side: Side) {
    if side.PeerSide? then h.peerOpen else h.backendOpen
  }

  function CopyOf(pc: Pc, dir: Direction): Copy
    requires pc.Piping?
  {
    if dir.FromPeer? then pc.fromPeer else pc.toPeer
  }

  function WithCopy(pc: Pc, dir: Direction, c: Copy): Pc
    requires pc.Piping?
  {
    if dir.FromPeer? then Piping(c, pc.toPeer) else Piping(pc.fromPeer, c)
  }

  predicate Grants(peers: seq<PeerConfig>, addr: Addr, service: string) {
    Search(PolicyInput(peers), addr, service).Some?
  }

  /** Drains a limiter's live set and returns the closes that are now owed. */
  function Drained(s: State, l: nat): (State, set<Close>)
    requires l < |s.lims|
  {
    (s.(lims := s.lims[l := s.lims[l].(live := {})]), BothSides(s.lims[l].live))
  }

  predicate ActEnabled(s: State, i: nat, act: Act)
    requires i < |s.hs|
  {
    var h := s.hs[i];
    match act
    case NoAddress => h.pc.Fresh?
    case Lookup => h.pc.Fresh?
    case Acquire(_) => h.pc.Known? && h.lim < |s.lims|
    case Hello(_) => h.pc.ReadingHello?
    case ResolveService => h.pc.Resolving?
    case Dial(_) => h.pc.Dialing?
    case Track => h.pc.Tracking? && h.lim < |s.lims|
    case Recheck => h.pc.Rechecking?
    case DropOrphan => h.pc.Orphaned? && h.lim < |s.lims|
    case Respond(written) => h.pc.Responding? && (written ==> h.peerOpen)
    case CopyEnd(dir) => h.pc.Piping? && CopyOf(h.pc, dir).Copying?
    case CopyClose(side) => h.pc.Piping? && (h.pc.fromPeer.Closing? || h.pc.toPeer.Closing?) && IsOpen(h, side)
    case CopyReturn(dir) => h.pc.Piping? && CopyOf(h.pc, dir).Closing? && !h.peerOpen && !h.backendOpen
    case ContextClose(side) => h.pc.Piping? && s.cancelled && IsOpen(h, side)
    case PipeReturn => h.pc.Piping? && h.pc.fromPeer.Finished? && h.pc.toPeer.Finished?
    case Unwind =>
      h.pc.Unwinding? && h.defers != [] && (h.defers[|h.defers| - 1] in {Release, Untrack} ==> h.lim < |s.lims|)
  }

  function With(s: State, i: nat, h: Handler): State
    requires i < |s.hs|
  {
    s.(hs := s.hs[i := h])
  }

  function WithLim(s: State, l: nat, lim: Lim): State
    requires l < |s.lims|
  {
    s.(lims := s.lims[l := lim])
  }

  /** The deferred calls, last registered first. */
  function UnwindOne(s: State, i: nat): State
    requires i < |s.hs| && ActEnabled(s, i, Unwind)
  {
    var h := s.hs[i];
    var n := |h.defers| - 1;
    var h' := h.(defers := h.defers[..n]);
    match h.defers[n]
    case WgDone => With(s, i, h').(wg := s.wg - 1)
    case ClosePeer => With(s, i, Shut(h', PeerSide))
    case CloseBackend => With(s, i, Shut(h', BackendSide))
    case Release => WithLim(With(s, i, h'), h.lim, s.lims[h.lim].(bucket := Limiter.GiveBack(s.lims[h.lim].bucket)))
    case Untrack => WithLim(With(s, i, h'), h.lim, s.lims[h.lim].(live := s.lims[h.lim].live - {i}))
  }

  function ActNext(s: State, i: nat, act: Act): State
    requires i < |s.hs| && ActEnabled(s, i, act)
  {
    var h := s.hs[i];
    match act
    case NoAddress => With(s, i, h.(pc := Unwinding))
    case Lookup =>
      if h.addr in s.inForce then With(s, i, h.(pc := Known, lim := s.inForce[h.addr]))
      else With(s, i, h.(pc := Unwinding))
    case Acquire(now) =>
      var (bucket, verdict) := Limiter.TryAcquire(s.lims[h.lim].bucket, now);
      var s' := WithLim(s, h.lim, s.lims[h.lim].(bucket := bucket));
      if verdict.Admitted? then With(s', i, h.(pc := ReadingHello, defers := h.defers + [Release]))
      else With(s', i, h.(pc := Responding(false)))
    case Hello(r) =>
      var pc := match r
        case Service(name) => Resolving(name)
        case Malformed => Responding(false)
        case NoHello => Unwinding;
      With(s, i, h.(pc := pc))
    case ResolveService =>
      With(s, i, h.(pc := if Grants(s.cur, h.addr, h.pc.service) then Dialing else Responding(false)))
    case Dial(connected) =>
      if connected then With(s, i, h.(pc := Tracking, backendOpen := true, defers := h.defers + [CloseBackend]))
      else With(s, i, h.(pc := Responding(false)))
    case Track => WithLim(With(s, i, h.(pc := Rechecking)), h.lim, s.lims[h.lim].(live := s.lims[h.lim].live + {i}))
    case Recheck =>
      if h.addr in s.inForce && s.inForce[h.addr] == h.lim then
        With(s, i, h.(pc := Responding(true), defers := h.defers + [Untrack]))
      else With(s, i, h.(pc := Orphaned))
    case DropOrphan => WithLim(With(s, i, h.(pc := Unwinding)), h.lim, s.lims[h.lim].(live := s.lims[h.lim].live - {i}))
    case Respond(written) => With(s, i, h.(pc := if h.pc.ok && written then Piping(Copying, Copying) else Unwinding))
    case CopyEnd(dir) => With(s, i, h.(pc := WithCopy(h.pc, dir, Closing)))
    case CopyClose(side) => With(s, i, Shut(h, side))
    case CopyReturn(dir) => With(s, i, h.(pc := WithCopy(h.pc, dir, Finished)))
    case ContextClose(side) => With(s, i, Shut(h, side))
    case PipeReturn => With(s, i, h.(pc := Unwinding))
    case Unwind => UnwindOne(s, i)
  }

  ghost predicate Enabled(s: State, a: Step) {
    match a
    case Accept(_) => s.run.Serving?
    case Cancel => true
    case Listen => s.run.Starting? && s.watch.Idle?
    case AcceptFails => s.run.Serving?
    case RunDeferred =>
      s.run.Returning? && s.run.defers != [] && (s.run.defers[|s.run.defers| - 1].AwaitWatcher? ==> s.watch.Exited?)
    case DrainLimiter(l) => s.run.DrainingAll? && s.run.closing == {} && l in s.run.todo && l < |s.lims|
    case DrainClose(c) => s.run.DrainingAll? && c in s.run.closing && c.h < |s.hs|
    case DrainDone => s.run.DrainingAll? && s.run.todo == {} && s.run.closing == {} && s.wg == 0
    case DrainTimeout => s.run.DrainingAll? && s.run.todo == {} && s.run.closing == {}
    case Publish(next) => !s.run.Starting? && s.watch.Idle? && Peers.Accepted(next)
    case Swap(after, added) => s.watch.Stored? && SwapAllowed(s, after, added)
    case ReapLimiter(l) => s.watch.Refreshing? && s.watch.closing == {} && l in s.watch.gone && l < |s.lims|
    case ReapClose(c) => s.watch.Refreshing? && c in s.watch.closing && c.h < |s.hs|
    case RefreshDone => s.watch.Refreshing? && s.watch.gone == {} && s.watch.closing == {}
    case ApplyDone => s.watch.Applying?
    case WatcherExit => !s.run.Starting? && s.watch.Idle?
    case WatcherCancel => s.watch.Exited?
    case Handle(i, act) => i < |s.hs| && ActEnabled(s, i, act)
  }

  function RunDeferredNext(s: State): State
    requires s.run.Returning? && s.run.defers != []
  {
    var rest := s.run.defers[..|s.run.defers| - 1];
    var s' := s.(run := Returning(rest));
    match s.run.defers[|s.run.defers| - 1]
    case CancelContext => s'.(cancelled := true)
    case AwaitWatcher => s'
    case Drain => s.(run := DrainingAll(rest, s.inForce.Values, {}))
    case CloseDevice => s'.(deviceOpen := false)
    case CloseWatcher => s'
  }

  ghost function Next(s: State, a: Step): State
    requires Enabled(s, a)
  {
    match a
    case Accept(addr) =>
      s.(hs := s.hs + [Handler(Unmap(addr), 0, Fresh, [WgDone, ClosePeer], true, false)], wg := s.wg + 1)
    case Cancel => s.(cancelled := true)
    case Listen => s.(run := Serving)
    case AcceptFails => s.(run := Returning(RUN_STACK))
    case RunDeferred => RunDeferredNext(s)
    case DrainLimiter(l) =>
      var (s', owed) := Drained(s, l);
      s'.(run := s.run.(todo := s.run.todo - {l}, closing := owed))
    case DrainClose(c) => With(s, c.h, Shut(s.hs[c.h], c.side)).(run := s.run.(closing := s.run.closing - {c}))
    case DrainDone => s.(run := Returning(s.run.defers))
    case DrainTimeout => s.(run := Returning(s.run.defers), timedOut := true)
    case Publish(next) => s.(cur := next, watch := Stored)
    case Swap(after, added) =>
      s.(lims := RelimitedAll(s.lims, after.Values, s.cur) + added, inForce := after,
         watch := Refreshing(s.inForce.Values - after.Values, {}))
    case ReapLimiter(l) =>
      var (s', owed) := Drained(s, l);
      s'.(watch := Refreshing(s.watch.gone - {l}, owed))
    case ReapClose(c) =>
      With(s, c.h, Shut(s.hs[c.h], c.side)).(watch := Refreshing(s.watch.gone, s.watch.closing - {c}))
    case RefreshDone => s.(watch := Applying)
    case ApplyDone => s.(watch := Idle)
    case WatcherExit => s.(watch := Exited)
    case WatcherCancel => s.(cancelled := true)
    case Handle(i, act) => ActNext(s, i, act)
  }

  /** The server with its initial list loaded and the first refresh to come. */
  function Initial(peers: seq<PeerConfig>): State {
    State([], [], map[], peers, false, 0, Stored, Starting, true, false)
  }

  ghost predicate Legal(s: State, run: seq<Step>)
    decreases run
  {
    run == [] || (Enabled(s, run[0]) && Legal(Next(s, run[0]), run[1..]))
  }

  ghost function After(s: State, run: seq<Step>): State
    requires Legal(s, run)
    decreases run
  {
    if run == [] then s else After(Next(s, run[0]), run[1..])
  }
}
