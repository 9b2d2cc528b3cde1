/**
 Runs of good and failed reloads. Every reported diff is kept, device calls may
 fail in any way, and the theorems relate the reports, the device and the
 name and limiter maps to the list in force.
 */
module History {
  import opened Prelude
  import opened Addresses
  import opened Peers
  import opened Device
  import opened Reload
  import opened DiffApplication
  import opened Convergence

  datatype Event = Good(next: seq<PeerConfig>, w: World) | Bad

  /** `names` and `limiterKeys` are the server's per-address maps. */
  datatype System = System(cur: seq<PeerConfig>, dev: State, names: map<Addr, string>, limiterKeys: map<Addr, string>,
                           reported: seq<Diff>)

  /** A map filled in list order, as the rebuild loop fills it. */
  function IndexBy(peers: seq<PeerConfig>, f: PeerConfig -> string): map<Addr, string> {
    if peers == [] then map[]
    else
      var p := peers[|peers| - 1];
      IndexBy(peers[..|peers| - 1], f)[Unmap(p.tunnelIP) := f(p)]
  }

  function NamesOf(peers: seq<PeerConfig>): map<Addr, string> {
    IndexBy(peers, (p: PeerConfig) => p.name)
  }

  function LimiterKeysOf(peers: seq<PeerConfig>): map<Addr, string> {
    IndexBy(peers, (p: PeerConfig) => p.publicKey)
  }

  function RefsInUse(privateKey: string, peers: seq<PeerConfig>): set<string> {
    {privateKey} + set p | p in peers :: p.psk
  }

  /** A failed reload reports an empty diff and changes nothing. */
  function Deliver(hex: KeyCodec, privateKey: string, s: System, e: Event): System {
    match e
    case Bad => s.(reported := s.reported + [Diff([], [], [])])
    case Good(next, w) =>
      var d := DiffOf(s.cur, next);
      System(next, Prune(Apply(hex, s.dev, d, w).0, RefsInUse(privateKey, next)), NamesOf(next), LimiterKeysOf(next),
        s.reported + [d])
  }

  function Run(hex: KeyCodec, privateKey: string, s: System, es: seq<Event>): System {
    if es == [] then s else Deliver(hex, privateKey, Run(hex, privateKey, s, es[..|es| - 1]), es[|es| - 1])
  }

  ghost predicate Loadable(es: seq<Event>) {
    forall e :: e in es && e.Good? ==> Accepted(e.next)
  }

  function FoldDiffs(m: Index, ds: seq<Diff>): Index {
    if ds == [] then m else Patch(FoldDiffs(m, ds[..|ds| - 1]), ds[|ds| - 1])
  }

  /** The server once its initial peer list is applied, every call having succeeded. */
  ghost predicate Started(hex: KeyCodec, s: System) {
    && Accepted(s.cur) && Synced(hex, s.dev, s.cur) && InjectiveOn(hex, s.cur)
    && s.names == NamesOf(s.cur) && s.limiterKeys == LimiterKeysOf(s.cur) && s.reported == []
  }

  lemma {:induction false} RunAccepted(hex: KeyCodec, privateKey: string, s: System, es: seq<Event>)
    requires Accepted(s.cur) && Loadable(es)
    ensures Accepted(Run(hex, privateKey, s, es).cur)
  {
    if es != [] {
      assert es[|es| - 1] in es;
      RunAccepted(hex, privateKey, s, es[..|es| - 1]);
    }
  }

  lemma PatchNothing(m: Index)
    ensures Patch(m, Diff([], [], [])) == m
  {
  }

  /** The reports alone reconstruct the list in force, whatever the device did. */
  lemma {:induction false} ReportsReconstruct(hex: KeyCodec, privateKey: string, s: System, es: seq<Event>)
    requires Started(hex, s) && Loadable(es)
    ensures var t := Run(hex, privateKey, s, es); FoldDiffs(ByKey(s.cur), t.reported) == ByKey(t.cur)
  {
    if es != [] {
      var before, e := es[..|es| - 1], es[|es| - 1];
      var t := Run(hex, privateKey, s, before);
      RunAccepted(hex, privateKey, s, before);
      ReportsReconstruct(hex, privateKey, s, before);
      hide Patch, ByKey, DiffOf, Apply, Started;
      assert e in es;
      var d := if e.Bad? then Diff([], [], []) else DiffOf(t.cur, e.next);
      assert (t.reported + [d])[..|t.reported|] == t.reported;
      if e.Good? {
        PatchYieldsNext(t.cur, e.next);
      } else {
        PatchNothing(ByKey(t.cur));
      }
    }
  }

  /** After every run the name and limiter maps hold exactly the list's addresses. */
  lemma {:induction false} MapsMatchList(hex: KeyCodec, privateKey: string, s: System, es: seq<Event>)
    requires Started(hex, s) && Loadable(es)
    ensures var t := Run(hex, privateKey, s, es);
            && t.names.Keys == t.limiterKeys.Keys == (set p | p in t.cur :: p.tunnelIP)
            && forall p :: p in t.cur ==> t.names[p.tunnelIP] == p.name && t.limiterKeys[p.tunnelIP] == p.publicKey
  {
    hide DiffOf, Apply, Synced, InjectiveOn, Accepted, IndexBy, Run;
    RunAccepted(hex, privateKey, s, es);
    var t := Run(hex, privateKey, s, es);
    MapsAreOfList(hex, privateKey, s, es);
    IndexOfList(t.cur, (p: PeerConfig) => p.name);
    IndexOfList(t.cur, (p: PeerConfig) => p.publicKey);
  }

  lemma {:induction false} MapsAreOfList(hex: KeyCodec, privateKey: string, s: System, es: seq<Event>)
    requires s.names == NamesOf(s.cur) && s.limiterKeys == LimiterKeysOf(s.cur)
    ensures var t := Run(hex, privateKey, s, es); t.names == NamesOf(t.cur) && t.limiterKeys == LimiterKeysOf(t.cur)
  {
    hide NamesOf, LimiterKeysOf, DiffOf, Apply;
    if es != [] {
      MapsAreOfList(hex, privateKey, s, es[..|es| - 1]);
    }
  }

  lemma LastIsNew(peers: seq<PeerConfig>)
    requires Accepted(peers) && peers != []
    ensures var rest, last := peers[..|peers| - 1], peers[|peers| - 1];
            Accepted(rest) && Unmap(last.tunnelIP) == last.tunnelIP && forall p :: p in rest ==>
              p.tunnelIP != last.tunnelIP
  {
    var rest, last := peers[..|peers| - 1], peers[|peers| - 1];
    assert last in peers;
    assert forall p :: p in rest ==> p in peers;
    forall p | p in rest ensures p.tunnelIP != last.tunnelIP {
      var i :| 0 <= i < |rest| && rest[i] == p;
      assert peers[i] == p;
    }
  }

  lemma {:induction false} IndexOfList(peers: seq<PeerConfig>, f: PeerConfig -> string)
    requires Accepted(peers)
    ensures IndexBy(peers, f).Keys == (set p | p in peers :: p.tunnelIP)
    ensures forall p :: p in peers ==> IndexBy(peers, f)[p.tunnelIP] == f(p)
  {
    if peers != [] {
      var rest, last := peers[..|peers| - 1], peers[|peers| - 1];
      assert peers == rest + [last];
      LastIsNew(peers);
      IndexOfList(rest, f);
      hide Accepted, Unmap;
      Indexed(IndexBy(rest, f), rest, last, f);
    }
  }

  lemma Indexed(m: map<Addr, string>, rest: seq<PeerConfig>, last: PeerConfig, f: PeerConfig -> string)
    requires m.Keys == set p | p in rest :: p.tunnelIP
    requires forall p :: p in rest ==> m[p.tunnelIP] == f(p) && p.tunnelIP != last.tunnelIP
    ensures var m', peers := m[last.tunnelIP := f(last)], rest + [last];
            m'.Keys == (set p | p in peers :: p.tunnelIP) && forall p :: p in peers ==> m'[p.tunnelIP] == f(p)
  {
    assert (set p | p in rest + [last] :: p.tunnelIP) == (set p | p in rest :: p.tunnelIP) + {last.tunnelIP};
  }

  // --------------------------------------------------------------------
  // Keys left on the device
  // --------------------------------------------------------------------

  /** Every key on the device is listed, or its last removal reported an error. */
  predicate Accounted(hex: KeyCodec, s: State, ps: seq<PeerConfig>) {
    && WellFormed(s.table)
    && forall k :: k in s.table.peers ==> Listed(hex, k, ps) || exists f :: f in s.failed && hex(f) == Some(k)
  }

  lemma RemoveAccounted(hex: KeyCodec, s: State, ps: seq<PeerConfig>, next: seq<PeerConfig>, fault: Option<nat>)
    requires ps != [] && Accounted(hex, s, next + ps)
    ensures Accounted(hex, RemoveOne(hex, s, ps[0], fault).0, next + ps[1..])
  {
    var p := ps[0];
    var s' := RemoveOne(hex, s, p, fault).0;
    assert forall q :: q in next + ps ==> q in next + ps[1..] || q == p by {
      assert ps == [p] + ps[1..];
    }
    if hex(p.publicKey).Some? {
      var k := hex(p.publicKey).value;
      if RemoveOne(hex, s, p, fault).1 {
        RemoveMeaning(hex, s.table, p.publicKey);
      } else {
        var n := fault.value;
        var lines := [PublicKey(k), Remove];
        OnlyNamedKey(s.table, Dummy, if n < |lines| then lines[..n] else lines, k);
      }
    }
    forall j | j in s'.table.peers
      ensures Listed(hex, j, next + ps[1..]) || exists f :: f in s'.failed && hex(f) == Some(j)
    {
      if Some(j) == hex(p.publicKey) {
        assert p.publicKey in s'.failed;
      } else {
        assert j in s.table.peers;
      }
    }
  }

  lemma {:induction false} RemovalsAccounted(hex: KeyCodec, s: State, ps: seq<PeerConfig>, next: seq<PeerConfig>,
                                             w: World, n: nat)
    requires Accounted(hex, s, next + ps)
    ensures Accounted(hex, RemoveAll(hex, s, ps, w, n).0, next)
    decreases ps
  {
    hide Accounted, RemoveOne;
    if ps == [] {
      assert next + ps == next;
    } else {
      RemoveAccounted(hex, s, ps, next, w.fault(n));
      RemovalsAccounted(hex, RemoveOne(hex, s, ps[0], w.fault(n)).0, ps[1..], next, w, n + 1);
    }
  }

  /** Applying a peer block, however far it got, concerns that peer's key only. */
  lemma ApplyNamed(hex: KeyCodec, t: Table, dp: DevicePeer, updateOnly: bool, fault: Option<nat>)
    requires WellFormed(t)
    ensures var t' := ApplyPeer(hex, t, dp, updateOnly, fault).0;
            WellFormed(t') && forall k :: k in t'.peers ==> k in t.peers || hex(dp.publicKey) == Some(k)
  {
    var r := Render(hex, dp, updateOnly);
    if r.Lines? {
      var k := hex(dp.publicKey).value;
      var fed := if fault.Some? && fault.value < |r.lines| then r.lines[..fault.value] else r.lines;
      assert forall l :: l in r.lines && l.PublicKey? ==> l.key == k;
      assert forall l :: l in fed ==> l in r.lines;
      hide FeedAll;
      OnlyNamedKey(t, Dummy, fed, k);
    }
  }

  lemma InstallAccounted(hex: KeyCodec, s: State, p: PeerConfig, updateOnly: bool, answer: Option<string>,
                         fault: Option<nat>, next: seq<PeerConfig>)
    requires p in next && Accounted(hex, s, next)
    ensures Accounted(hex, InstallOne(hex, s, p, updateOnly, answer, fault).0, next)
  {
    hide ApplyPeer, WellFormed;
    var cache := Resolved(s, answer, p.psk).cache;
    if p.psk in cache {
      ApplyNamed(hex, s.table, DevicePeer(p.publicKey, cache[p.psk], p.tunnelIP, None), updateOnly, fault);
    }
  }

  lemma {:induction false} InstallsAccounted(hex: KeyCodec, s: State, ps: seq<PeerConfig>, updateOnly: bool, w: World,
                                             n: nat, next: seq<PeerConfig>)
    requires (forall p :: p in ps ==> p in next) && Accounted(hex, s, next)
    ensures Accounted(hex, InstallAll(hex, s, ps, updateOnly, w, n).0, next)
    decreases ps
  {
    hide Accounted, InstallOne;
    if ps != [] {
      InstallAccounted(hex, s, ps[0], updateOnly, w.store(n, ps[0].psk), w.fault(n), next);
      InstallsAccounted(hex, InstallOne(hex, s, ps[0], updateOnly, w.store(n, ps[0].psk), w.fault(n)).0, ps[1..],
        updateOnly, w, n + 1, next);
    }
  }

  lemma ApplyAccounted(hex: KeyCodec, s: State, prev: seq<PeerConfig>, next: seq<PeerConfig>, w: World)
    requires Accounted(hex, s, prev)
    ensures Accounted(hex, Apply(hex, s, DiffOf(prev, next), w).0, next)
  {
    DiffMembers(prev, next);
    hide LastWith, DiffOf, RemoveAll, InstallAll;
    var d := DiffOf(prev, next);
    forall k | Listed(hex, k, prev) ensures Listed(hex, k, next + d.removed) {
      var q :| q in prev && hex(q.publicKey) == Some(k);
      if q in d.removed {
        assert q in next + d.removed;
      } else {
        var p := LastWith(next, q.publicKey).value;
        assert p in next + d.removed && hex(p.publicKey) == Some(k);
      }
    }
    RemovalsAccounted(hex, s, d.removed, next, w, 0);
    var s1 := RemoveAll(hex, s, d.removed, w, 0).0;
    InstallsAccounted(hex, s1, d.added, false, w, |d.removed|, next);
    var s2 := InstallAll(hex, s1, d.added, false, w, |d.removed|).0;
    InstallsAccounted(hex, s2, d.changed, true, w, |d.removed| + |d.added|, next);
  }

  /** Over any run, with any device failures, no key is left behind unreported. */
  lemma {:induction false} NoKeyLeftBehind(hex: KeyCodec, privateKey: string, s: System, es: seq<Event>)
    requires Started(hex, s)
    ensures var t := Run(hex, privateKey, s, es); Accounted(hex, t.dev, t.cur)
  {
    if es == [] {
      SyncedToward(hex, s.dev, s.cur);
    } else {
      var before, e := es[..|es| - 1], es[|es| - 1];
      NoKeyLeftBehind(hex, privateKey, s, before);
      var t := Run(hex, privateKey, s, before);
      if e.Good? {
        ApplyAccounted(hex, t.dev, t.cur, e.next, e.w);
      }
    }
  }

  // --------------------------------------------------------------------
  // Secrets kept in memory
  // --------------------------------------------------------------------

  predicate RefListed(peers: seq<PeerConfig>, ref: string) {
    exists p :: p in peers && p.psk == ref
  }

  lemma Lists(peers: seq<PeerConfig>, p: PeerConfig)
    requires p in peers
    ensures RefListed(peers, p.psk)
  {
  }

  /** Once a list was reloaded, only its references and the server's own key have a cached secret. */
  lemma {:induction false} OnlyListedSecretsCached(hex: KeyCodec, privateKey: string, s: System, es: seq<Event>)
    requires exists e :: e in es && e.Good?
    ensures var t := Run(hex, privateKey, s, es);
            forall ref :: ref in t.dev.cache ==> ref == privateKey || RefListed(t.cur, ref)
  {
    hide DiffOf, Apply, RefListed;
    var before, e := es[..|es| - 1], es[|es| - 1];
    var t := Run(hex, privateKey, s, es);
    if e.Bad? {
      assert es == before + [e];
      OnlyListedSecretsCached(hex, privateKey, s, before);
      assert t == Deliver(hex, privateKey, Run(hex, privateKey, s, before), e);
    } else {
      assert t == Deliver(hex, privateKey, Run(hex, privateKey, s, before), e);
      forall ref | ref in t.dev.cache && ref != privateKey ensures RefListed(t.cur, ref) {
        var p :| p in e.next && p.psk == ref;
        Lists(e.next, p);
      }
    }
  }

  ghost predicate ListedThroughout(es: seq<Event>, ref: string) {
    forall e :: e in es && e.Good? ==> RefListed(e.next, ref)
  }

  /** A cached secret keeps its value as long as every list names its reference, whatever the store says. */
  lemma {:induction false} ListedSecretsStay(hex: KeyCodec, privateKey: string, s: System, es: seq<Event>, ref: string)
    requires ref in s.dev.cache && (ref == privateKey || ListedThroughout(es, ref))
    ensures var t := Run(hex, privateKey, s, es); ref in t.dev.cache && t.dev.cache[ref] == s.dev.cache[ref]
  {
    if es != [] {
      var before, e := es[..|es| - 1], es[|es| - 1];
      ListedSecretsStay(hex, privateKey, s, before, ref);
      if e.Good? {
        assert e in es;
        var t := Run(hex, privateKey, s, before);
        ApplyCache(hex, t.dev, DiffOf(t.cur, e.next), e.w);
      }
      hide DiffOf, Apply;
    }
  }

  // --------------------------------------------------------------------
  // Runs in which every device call succeeds
  // --------------------------------------------------------------------

  predicate AllApplied(hex: KeyCodec, privateKey: string, s: System, es: seq<Event>) {
    if es == [] then true
    else
      var before, e := es[..|es| - 1], es[|es| - 1];
      var t := Run(hex, privateKey, s, before);
      AllApplied(hex, privateKey, s, before) && (e.Good? ==> Apply(hex, t.dev, DiffOf(t.cur, e.next), e.w).1)
  }

  ghost predicate InjectiveKeys(hex: KeyCodec, keys: set<string>) {
    forall a, b :: a in keys && b in keys && hex(a).Some? && hex(a) == hex(b) ==> a == b
  }

  ghost predicate KeysWithin(s: System, es: seq<Event>, keys: set<string>) {
    KeysOf(s.cur) <= keys && forall e :: e in es && e.Good? ==> KeysOf(e.next) <= keys
  }

  lemma WithinInjective(hex: KeyCodec, keys: set<string>, ps: seq<PeerConfig>)
    requires InjectiveKeys(hex, keys) && forall p :: p in ps ==> p.publicKey in keys
    ensures InjectiveOn(hex, ps)
  {
  }

  lemma {:induction false} RunStaysSynced(hex: KeyCodec, privateKey: string, s: System, es: seq<Event>,
                                          keys: set<string>)
    requires Started(hex, s) && Loadable(es) && InjectiveKeys(hex, keys) && KeysWithin(s, es, keys)
    requires AllApplied(hex, privateKey, s, es)
    ensures var t := Run(hex, privateKey, s, es); Synced(hex, t.dev, t.cur) && Accepted(t.cur) && KeysOf(t.cur) <= keys
  {
    if es != [] {
      var before, e := es[..|es| - 1], es[|es| - 1];
      RunStaysSynced(hex, privateKey, s, before, keys);
      var t := Run(hex, privateKey, s, before);
      hide Synced, DiffOf, Apply, Started, InjectiveOn, Accepted, Prune;
      if e.Good? {
        assert e in es;
        assert forall p :: p in t.cur ==> p.publicKey in KeysOf(t.cur);
        assert forall p :: p in e.next ==> p.publicKey in KeysOf(e.next);
        WithinInjective(hex, keys, t.cur + e.next);
        WithinInjective(hex, keys, e.next);
        ApplyDiffConverges(hex, t.dev, t.cur, e.next, e.w);
        PruneKeepsSynced(hex, Apply(hex, t.dev, DiffOf(t.cur, e.next), e.w).0, e.next, RefsInUse(privateKey, e.next));
      }
    }
  }
}
