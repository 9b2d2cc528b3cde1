/**
 The server's reload callback on its own objects: rebuilding the name map and
 the limiter set, reaping who left, then bringing the device up to the list.
 */
module Server {
  import opened Prelude
  import opened Addresses
  import opened Peers
  import opened Limiter
  import opened Reload
  import opened DiffApplication
  import History
  import ServerProtocol

  datatype ReloadResult = ReloadResult(failed: bool, peerCount: nat, diff: Diff)

  function KeyOf(): PeerLimiter -> string {
    (l: PeerLimiter) => l.publicKey
  }

  /** A map with the list's addresses and each one's key is the fold of the list. */
  lemma KeysOfList(m: map<Addr, string>, peers: seq<PeerConfig>)
    requires Accepted(peers) && m.Keys == (set p | p in peers :: Unmap(p.tunnelIP))
    requires forall p :: p in peers ==> m[Unmap(p.tunnelIP)] == p.publicKey
    ensures m == History.LimiterKeysOf(peers)
  {
    var folded := History.LimiterKeysOf(peers);
    History.IndexOfList(peers, (p: PeerConfig) => p.publicKey);
    assert forall p :: p in peers ==> Unmap(p.tunnelIP) == p.tunnelIP;
    hide Unmap, Accepted, History.IndexBy;
    assert m.Keys == folded.Keys;
    forall a | a in m ensures m[a] == folded[a] {
      var p :| p in peers && Unmap(p.tunnelIP) == a;
    }
  }

  /** `after` is a map the protocol's swap allows, and its keys are those folded from the list. */
  ghost predicate RefreshOf(before: map<Addr, PeerLimiter>, after: map<Addr, PeerLimiter>, peers: seq<PeerConfig>) {
    && ServerProtocol.Refreshes(before, after, peers, KeyOf())
    && (map a | a in after :: after[a].publicKey) == History.LimiterKeysOf(peers)
  }

  lemma RefreshedFrom(before: map<Addr, PeerLimiter>, after: map<Addr, PeerLimiter>, peers: seq<PeerConfig>)
    requires Accepted(peers)
    requires forall p :: p in peers ==> Unmap(p.tunnelIP) in after && after[Unmap(p.tunnelIP)].publicKey == p.publicKey
    requires forall a :: a in after ==> exists j :: 0 <= j < |peers| && Unmap(peers[j].tunnelIP) == a
    requires forall p :: p in peers ==>
               var ip := Unmap(p.tunnelIP);
               if ip in before && before[ip].publicKey == p.publicKey then after[ip] == before[ip]
                 else after[ip] !in before.Values
    ensures RefreshOf(before, after, peers)
  {
    hide Unmap, Accepted;
    assert after.Keys == set p | p in peers :: Unmap(p.tunnelIP);
    KeysOfList(map a | a in after :: after[a].publicKey, peers);
  }

  class Server {
    const privateKey: string
    const applier: Applier
    var peerNames: map<Addr, string>
    var limiters: map<Addr, PeerLimiter>

    constructor (privateKey: string, applier: Applier)
      ensures this.privateKey == privateKey && this.applier == applier && peerNames == map[] && limiters == map[]
                && Valid()
    {
      this.privateKey := privateKey;
      this.applier := applier;
      peerNames, limiters := map[], map[];
    }

    /** One limiter per address. */
    ghost predicate Valid()
      reads this
    {
      forall a, b :: a in limiters && b in limiters && a != b ==> limiters[a] != limiters[b]
    }

    /** Every connection registered with a limiter in force. */
    ghost function Conns(): set<LiveConn>
      reads this, limiters.Values
    {
      set a, c | a in limiters && c in limiters[a].live :: c
    }

    /** Same public key at the same address. */
    predicate Survives(p: PeerConfig)
      reads this
    {
      Unmap(p.tunnelIP) in limiters && limiters[Unmap(p.tunnelIP)].publicKey == p.publicKey
    }

    method BuildNames(peers: seq<PeerConfig>) returns (names: map<Addr, string>)
      ensures names == History.NamesOf(peers)
    {
      names := map[];
      for i := 0 to |peers|
        invariant names == History.NamesOf(peers[..i])
      {
        assert peers[..i + 1][..i] == peers[..i];
        names := names[Unmap(peers[i].tunnelIP) := peers[i].name];
      }
      assert peers[..|peers|] == peers;
    }

    /** The limiter one listed peer gets: its own with new limits, or a new one. */
    method LimiterOf(p: PeerConfig, now: real) returns (l: PeerLimiter)
      modifies limiters.Values
      ensures l.publicKey == p.publicKey
      ensures Survives(p) ==>
                && l == limiters[Unmap(p.tunnelIP)]
                && l.State() == WithLimits(old(limiters[Unmap(p.tunnelIP)].State()), p.limits)
      ensures !Survives(p) ==> fresh(l) && l.State() == New(p.limits, now) && l.live == {}
      ensures forall k :: k in limiters.Values ==> k.live == old(k.live) && (k != l ==> k.State() == old(k.State()))
    {
      var ip := Unmap(p.tunnelIP);
      if ip in limiters && limiters[ip].publicKey == p.publicKey {
        l := limiters[ip];
        l.SetLimits(p.limits);
      } else {
        l := new PeerLimiter(p.publicKey, p.limits, now);
      }
    }

    /** `l` is what the rebuild gives the peer, seen from the state before it. */
    twostate predicate Built(p: PeerConfig, new l: PeerLimiter, now: real)
      reads this, l
    {
      && l.publicKey == p.publicKey
      && (old(Survives(p)) ==>
           && l == old(limiters)[Unmap(p.tunnelIP)]
           && l.State() == WithLimits(old(limiters[Unmap(p.tunnelIP)].State()), p.limits)
           && l.live == old(limiters[Unmap(p.tunnelIP)].live))
      && (!old(Survives(p)) ==> fresh(l) && l.State() == New(p.limits, now) && l.live == {})
    }

    method BuildLimiters(peers: seq<PeerConfig>, now: real) returns (lims: map<Addr, PeerLimiter>)
      requires Accepted(peers) && Valid()
      modifies limiters.Values
      ensures forall j :: 0 <= j < |peers| ==>
                Unmap(peers[j].tunnelIP) in lims && Built(peers[j], lims[Unmap(peers[j].tunnelIP)], now)
      ensures forall a :: a in lims ==> exists j :: 0 <= j < |peers| && Unmap(peers[j].tunnelIP) == a
      ensures forall l :: l in limiters.Values ==> l.live == old(l.live)
      ensures RefreshOf(limiters, lims, peers)
    {
      hide WithLimits, New, Accepted, Unmap, RefreshOf;
      lims := map[];
      for i := 0 to |peers|
        invariant forall j :: 0 <= j < i ==>
                    Unmap(peers[j].tunnelIP) in lims && Built(peers[j], lims[Unmap(peers[j].tunnelIP)], now)
        invariant forall a :: a in lims ==>
                    allocated(lims[a]) && exists j :: 0 <= j < i && Unmap(peers[j].tunnelIP) == a
        invariant forall a :: a in limiters ==> limiters[a].live == old(limiters[a].live)
        invariant forall a :: a in limiters && a !in lims ==> limiters[a].State() == old(limiters[a].State())
      {
        FreshAddress(peers, i);
        var l := LimiterOf(peers[i], now);
        lims := lims[Unmap(peers[i].tunnelIP) := l];
      }
      forall p | p in peers
        ensures Unmap(p.tunnelIP) in lims && lims[Unmap(p.tunnelIP)].publicKey == p.publicKey
        ensures Survives(p) ==> lims[Unmap(p.tunnelIP)] == limiters[Unmap(p.tunnelIP)]
        ensures !Survives(p) ==> lims[Unmap(p.tunnelIP)] !in limiters.Values
      {
        var j :| 0 <= j < |peers| && peers[j] == p;
        assert Built(peers[j], lims[Unmap(peers[j].tunnelIP)], now);
      }
      RefreshedFrom(limiters, lims, peers);
    }

    method ReapAll(gone: set<PeerLimiter>)
      modifies gone, set l, c | l in gone && c in l.live :: c
      ensures forall l :: l in gone ==> l.live == {} && l.State() == old(l.State())
      ensures forall l, c :: l in gone && c in old(l.live) ==> !c.peerOpen && !c.backendOpen
    {
      var todo := gone;
      while todo != {}
        invariant todo <= gone
        invariant forall l :: l in gone ==>
                    l.State() == old(l.State()) && l.live == if l in todo then old(l.live) else {}
        invariant forall l, c :: l in gone - todo && c in old(l.live) ==> !c.peerOpen && !c.backendOpen
        decreases |todo|
      {
        var l :| l in todo;
        l.CloseLive();
        todo := todo - {l};
      }
    }

    /** Exactly the listed addresses, each with the limiter it is due. */
    twostate predicate Rebuilt(peers: seq<PeerConfig>, now: real)
      reads this, limiters.Values
    {
      && (forall j :: 0 <= j < |peers| ==>
           Unmap(peers[j].tunnelIP) in limiters && Built(peers[j], limiters[Unmap(peers[j].tunnelIP)], now))
      && (forall a :: a in limiters ==> exists j :: 0 <= j < |peers| && Unmap(peers[j].tunnelIP) == a)
    }

    /** The half under the lock: new maps, and the limiters that left with them. */
    method SwapMaps(peers: seq<PeerConfig>, now: real) returns (gone: set<PeerLimiter>)
      requires Accepted(peers) && Valid()
      modifies this, limiters.Values
      ensures Valid() && peerNames == History.NamesOf(peers)
      ensures forall j :: 0 <= j < |peers| ==>
                Unmap(peers[j].tunnelIP) in limiters && Built(peers[j], limiters[Unmap(peers[j].tunnelIP)], now)
      ensures forall a :: a in limiters ==> exists j :: 0 <= j < |peers| && Unmap(peers[j].tunnelIP) == a
      ensures gone == old(limiters.Values) - limiters.Values
      ensures forall l :: l in old(limiters.Values) ==> l.live == old(l.live)
      ensures RefreshOf(old(limiters), limiters, peers)
    {
      hide WithLimits, New, Accepted, Unmap, History.NamesOf, RefreshOf;
      var names := BuildNames(peers);
      var lims := BuildLimiters(peers, now);
      gone := limiters.Values - lims.Values;
      peerNames, limiters := names, lims;
      assert forall j :: 0 <= j < |peers| ==> Built(peers[j], limiters[Unmap(peers[j].tunnelIP)], now);
      forall a, b | a in limiters && b in limiters && a != b ensures limiters[a] != limiters[b] {
        var i :| 0 <= i < |peers| && Unmap(peers[i].tunnelIP) == a;
        var j :| 0 <= j < |peers| && Unmap(peers[j].tunnelIP) == b;
        KeysApart(peers, i, j);
      }
    }

    method RefreshPeers(peers: seq<PeerConfig>, now: real)
      requires Accepted(peers) && Valid()
      modifies this, limiters.Values, Conns()
      ensures Valid() && peerNames == History.NamesOf(peers) && Rebuilt(peers, now)
      ensures RefreshOf(old(limiters), limiters, peers)
      ensures forall l :: l in old(limiters.Values) - limiters.Values ==>
                l.live == {} && forall c :: c in old(l.live) ==> !c.peerOpen && !c.backendOpen
      ensures forall c ::
                (c in old(Conns()) && forall l :: l in old(limiters.Values) - limiters.Values ==> c !in old(l.live)) ==>
                c.peerOpen == old(c.peerOpen) && c.backendOpen == old(c.backendOpen)
    {
      hide WithLimits, New, Accepted, Unmap, History.NamesOf, RefreshOf;
      var gone := SwapMaps(peers, now);
      ReapAll(gone);
    }

    method SyncDevice(d: Diff, inForce: seq<PeerConfig>, w: World) returns (applied: bool)
      modifies applier, applier.dev
      ensures applier.Now() == Prune(Apply(applier.dev.hex, old(applier.Now()), d, w).0,
                History.RefsInUse(privateKey, inForce))
      ensures applied == Apply(applier.dev.hex, old(applier.Now()), d, w).1
    {
      hide Apply, Prune;
      applied := applier.ApplyDiff(d, w);
      applier.PruneSecretCache({privateKey} + set p | p in inForce :: p.psk);
    }

    /**
     The maps first, so a new peer never meets a missing limiter, then the device, then
     the secrets nobody refers to any more.
     */
    method ApplyReload(d: Diff, inForce: seq<PeerConfig>, now: real, w: World) returns (applied: bool)
      requires Accepted(inForce) && Valid()
      modifies this, limiters.Values, Conns(), applier, applier.dev
      ensures Valid() && peerNames == History.NamesOf(inForce) && Rebuilt(inForce, now)
                && RefreshOf(old(limiters), limiters, inForce)
      ensures forall l :: l in old(limiters.Values) - limiters.Values ==>
                l.live == {} && forall c :: c in old(l.live) ==> !c.peerOpen && !c.backendOpen
      ensures forall c ::
                (c in old(Conns()) && forall l :: l in old(limiters.Values) - limiters.Values ==> c !in old(l.live)) ==>
                c.peerOpen == old(c.peerOpen) && c.backendOpen == old(c.backendOpen)
      ensures applier.Now() == Prune(Apply(applier.dev.hex, old(applier.Now()), d, w).0,
                History.RefsInUse(privateKey, inForce))
      ensures applied == Apply(applier.dev.hex, old(applier.Now()), d, w).1
    {
      hide Apply, Prune, History.NamesOf, Accepted, WithLimits, New, Unmap, Rebuilt, RefreshOf;
      RefreshPeers(inForce, now);
      applied := SyncDevice(d, inForce, w);
    }

    /** The watcher's callback. */
    method HandleReload(r: ReloadResult, inForce: seq<PeerConfig>, now: real, w: World) returns (applied: bool)
      requires Accepted(inForce) && Valid()
      modifies this, limiters.Values, Conns(), applier, applier.dev
      ensures Valid()
      ensures r.failed ==>
                && !applied && applier.Now() == old(applier.Now())
                && limiters == old(limiters) && peerNames == old(peerNames)
      ensures r.failed ==> forall l :: l in limiters.Values ==> l.State() == old(l.State()) && l.live == old(l.live)
      ensures !r.failed ==>
                && peerNames == History.NamesOf(inForce) && Rebuilt(inForce, now)
                && RefreshOf(old(limiters), limiters, inForce)
      ensures !r.failed ==> forall l :: l in old(limiters.Values) - limiters.Values ==>
                l.live == {} && forall c :: c in old(l.live) ==> !c.peerOpen && !c.backendOpen
      ensures forall c ::
                (c in old(Conns()) && forall l :: l in old(limiters.Values) - limiters.Values ==> c !in old(l.live)) ==>
                c.peerOpen == old(c.peerOpen) && c.backendOpen == old(c.backendOpen)
      ensures !r.failed ==>
                var s := Apply(applier.dev.hex, old(applier.Now()), r.diff, w).0;
                applier.Now() == Prune(s, History.RefsInUse(privateKey, inForce))
      ensures !r.failed ==> applied == Apply(applier.dev.hex, old(applier.Now()), r.diff, w).1
    {
      hide *;
      if r.failed {
        return false;
      }
      applied := ApplyReload(r.diff, inForce, now, w);
    }
  }

  lemma FreshAddress(peers: seq<PeerConfig>, i: nat)
    requires Accepted(peers) && i < |peers|
    ensures forall j :: 0 <= j < i ==> Unmap(peers[j].tunnelIP) != Unmap(peers[i].tunnelIP)
  {
    assert forall j :: 0 <= j < |peers| ==> peers[j] in peers;
  }

  lemma KeysApart(peers: seq<PeerConfig>, i: nat, j: nat)
    requires Accepted(peers) && i < |peers| && j < |peers| && Unmap(peers[i].tunnelIP) != Unmap(peers[j].tunnelIP)
    ensures peers[i].publicKey != peers[j].publicKey
  {
  }
}
