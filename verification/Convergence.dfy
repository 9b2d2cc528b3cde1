/**
 What applying a diff achieves: if every device call succeeds, the device ends
 with exactly the tables built from scratch from the new list, even when
 surviving peers swap or rotate addresses.
 */
module Convergence {
  import opened Prelude
  import opened Addresses
  import opened Peers
  import opened Device
  import opened Reload

  const CALM := World((n: nat, ref: string) => None, (n: nat) => None)

  /** Building the device from nothing out of cached secrets gives this table. */
  ghost predicate Synced(hex: KeyCodec, s: State, peers: seq<PeerConfig>) {
    InstallAll(hex, State(EMPTY, s.cache, {}), peers, false, CALM, 0) == (State(s.table, s.cache, {}), true)
  }

  predicate Usable(hex: KeyCodec, cache: map<string, string>, p: PeerConfig) {
    hex(p.publicKey).Some? && p.psk in cache && hex(cache[p.psk]).Some?
  }

  predicate Settled(hex: KeyCodec, cache: map<string, string>, t: Table, p: PeerConfig) {
    && Usable(hex, cache, p)
    && var k := hex(p.publicKey).value;
       && k in t.peers && t.peers[k] == Entry(hex(cache[p.psk]), None, 0)
       && p.tunnelIP in t.owner && t.owner[p.tunnelIP] == k
  }

  predicate Listed(hex: KeyCodec, k: Key, ps: seq<PeerConfig>) {
    exists p :: p in ps && hex(p.publicKey) == Some(k)
  }

  /** On the way to `next`: peers in `done` are final, everyone else belongs to `next`. */
  ghost predicate Toward(hex: KeyCodec, cache: map<string, string>, t: Table, next: seq<PeerConfig>,
                         done: set<PeerConfig>) {
    && WellFormed(t)
    && (forall p :: p in done ==> p in next && Settled(hex, cache, t, p))
    && (forall k :: k in t.peers ==> Listed(hex, k, next) && t.peers[k].endpoint == None && t.peers[k].keepalive == 0)
    && (forall a, p :: a in t.owner && p in done && Some(t.owner[a]) == hex(p.publicKey) ==> a == p.tunnelIP)
  }

  /** What one successful installation did, and that it found what it needed. */
  lemma InstallMeaning(hex: KeyCodec, s: State, p: PeerConfig, updateOnly: bool, answer: Option<string>,
                       fault: Option<nat>)
    requires WellFormed(s.table)
    requires InstallOne(hex, s, p, updateOnly, answer, fault).1
    requires updateOnly ==> hex(p.publicKey).Some? ==> hex(p.publicKey).value in s.table.peers
    ensures var s' := InstallOne(hex, s, p, updateOnly, answer, fault).0;
            && s'.cache == Resolved(s, answer, p.psk).cache && s'.failed == s.failed && Usable(hex, s'.cache, p)
            && s'.table == Installed(s.table, hex(p.publicKey).value,
                 DevicePeer(p.publicKey, s'.cache[p.psk], p.tunnelIP, None), hex(s'.cache[p.psk]).value)
  {
    var cache := Resolved(s, answer, p.psk).cache;
    BlockMeaning(hex, s.table, DevicePeer(p.publicKey, cache[p.psk], p.tunnelIP, None), updateOnly);
  }

  lemma InstallToward(hex: KeyCodec, s: State, p: PeerConfig, updateOnly: bool, answer: Option<string>,
                      fault: Option<nat>, next: seq<PeerConfig>, done: set<PeerConfig>)
    requires Distinct(next) && InjectiveOn(hex, next) && p in next && Toward(hex, s.cache, s.table, next, done)
    requires InstallOne(hex, s, p, updateOnly, answer, fault).1
    requires updateOnly ==> hex(p.publicKey).Some? ==> hex(p.publicKey).value in s.table.peers
    ensures var s' := InstallOne(hex, s, p, updateOnly, answer, fault).0;
            && Toward(hex, s'.cache, s'.table, next, done + {p})
            && s.table.peers.Keys <= s'.table.peers.Keys && s.cache.Keys <= s'.cache.Keys
  {
    InstallMeaning(hex, s, p, updateOnly, answer, fault);
    hide InstallOne, Distinct, InjectiveOn;
    forall q | q in done && q != p ensures hex(q.publicKey) != hex(p.publicKey) && q.tunnelIP != p.tunnelIP {
      Apart(hex, next, p, q);
    }
    InstalledToward(hex, s.cache, Resolved(s, answer, p.psk).cache, s.table, p, next, done);
  }

  lemma Apart(hex: KeyCodec, ps: seq<PeerConfig>, p: PeerConfig, q: PeerConfig)
    requires Distinct(ps) && InjectiveOn(hex, ps) && p in ps && q in ps && p != q && hex(p.publicKey).Some?
    ensures hex(p.publicKey) != hex(q.publicKey) && p.tunnelIP != q.tunnelIP
  {
    DistinctPair(ps, p, q);
  }

  function PlainPeer(p: PeerConfig, psk: string): DevicePeer {
    DevicePeer(p.publicKey, psk, p.tunnelIP, None)
  }

  lemma InstalledSettled(hex: KeyCodec, cache: map<string, string>, cache': map<string, string>, t: Table,
                         p: PeerConfig, q: PeerConfig)
    requires Settled(hex, cache, t, q) && Usable(hex, cache', p) && q.psk in cache' && cache'[q.psk] == cache[q.psk]
    requires q != p ==> hex(q.publicKey) != hex(p.publicKey) && q.tunnelIP != p.tunnelIP
    ensures Settled(hex, cache', Installed(t, hex(p.publicKey).value, PlainPeer(p, cache'[p.psk]),
              hex(cache'[p.psk]).value), q)
  {
  }

  lemma InstalledShape(hex: KeyCodec, cache': map<string, string>, t: Table, p: PeerConfig)
    requires WellFormed(t) && Usable(hex, cache', p)
    requires var k := hex(p.publicKey).value; k in t.peers ==> t.peers[k].endpoint == None && t.peers[k].keepalive == 0
    ensures var u := Installed(t, hex(p.publicKey).value, PlainPeer(p, cache'[p.psk]), hex(cache'[p.psk]).value);
            WellFormed(u) && Settled(hex, cache', u, p)
  {
  }

  lemma InstalledToward(hex: KeyCodec, cache: map<string, string>, cache': map<string, string>, t: Table, p: PeerConfig,
                        next: seq<PeerConfig>, done: set<PeerConfig>)
    requires Toward(hex, cache, t, next, done) && p in next && Usable(hex, cache', p)
    requires forall ref :: ref in cache ==> ref in cache' && cache'[ref] == cache[ref]
    requires forall q :: q in done && q != p ==> hex(q.publicKey) != hex(p.publicKey) && q.tunnelIP != p.tunnelIP
    ensures var dp := DevicePeer(p.publicKey, cache'[p.psk], p.tunnelIP, None);
            Toward(hex, cache', Installed(t, hex(p.publicKey).value, dp, hex(cache'[p.psk]).value), next, done + {p})
  {
    var k := hex(p.publicKey).value;
    var u := Installed(t, k, PlainPeer(p, cache'[p.psk]), hex(cache'[p.psk]).value);
    InstalledShape(hex, cache', t, p);
    forall q | q in done ensures Settled(hex, cache', u, q) {
      assert Settled(hex, cache, t, q);
      InstalledSettled(hex, cache, cache', t, p, q);
    }
    assert Listed(hex, k, next);
    InstalledChanges(t, k, PlainPeer(p, cache'[p.psk]), hex(cache'[p.psk]).value);
    assert k in u.peers && u.peers[k].endpoint == None && u.peers[k].keepalive == 0;
    hide Settled, Usable, Listed, WellFormed, Installed;
    forall a, q | a in u.owner && q in done + {p} && Some(u.owner[a]) == hex(q.publicKey) ensures a == q.tunnelIP {
      if a == p.tunnelIP {
        assert q != p ==> hex(q.publicKey) != Some(k);
      }
    }
  }

  lemma InstalledChanges(t: Table, k: Key, p: DevicePeer, psk: Key)
    ensures var u := Installed(t, k, p, psk);
            && (forall j :: j in u.peers ==> j == k || (j in t.peers && u.peers[j] == t.peers[j]))
            && (forall a :: a in u.owner ==>
                 a == p.allowedIP || (a in t.owner && u.owner[a] == t.owner[a] && t.owner[a] != k))
  {
  }

  lemma {:induction false} InstallAllToward(hex: KeyCodec, s: State, ps: seq<PeerConfig>, updateOnly: bool, w: World,
                                            n: nat, next: seq<PeerConfig>, done: set<PeerConfig>)
    requires Distinct(next) && InjectiveOn(hex, next) && Toward(hex, s.cache, s.table, next, done)
    requires forall p :: p in ps ==> p in next
    requires updateOnly ==> forall p :: p in ps && hex(p.publicKey).Some? ==> hex(p.publicKey).value in s.table.peers
    requires InstallAll(hex, s, ps, updateOnly, w, n).1
    ensures var s' := InstallAll(hex, s, ps, updateOnly, w, n).0;
            && Toward(hex, s'.cache, s'.table, next, done + set p | p in ps)
            && s.table.peers.Keys <= s'.table.peers.Keys && s.cache.Keys <= s'.cache.Keys
    decreases ps
  {
    hide Toward, InstallOne, InjectiveOn, Distinct;
    if ps == [] {
      assert done + (set p | p in ps) == done;
    } else {
      var (s1, ok) := InstallOne(hex, s, ps[0], updateOnly, w.store(n, ps[0].psk), w.fault(n));
      InstallToward(hex, s, ps[0], updateOnly, w.store(n, ps[0].psk), w.fault(n), next, done);
      InstallAllToward(hex, s1, ps[1..], updateOnly, w, n + 1, next, done + {ps[0]});
      assert ps == [ps[0]] + ps[1..];
      assert done + (set p | p in ps) == done + {ps[0]} + set p | p in ps[1..];
    }
  }

  /** Once every peer is final, the table is determined. */
  lemma TowardUnique(hex: KeyCodec, cache: map<string, string>, t: Table, u: Table, next: seq<PeerConfig>)
    requires Toward(hex, cache, t, next, set p | p in next) && Toward(hex, cache, u, next, set p | p in next)
    ensures t == u
  {
    SubTable(hex, cache, t, u, next);
    SubTable(hex, cache, u, t, next);
    assert t.peers == u.peers && t.owner == u.owner;
  }

  lemma SubTable(hex: KeyCodec, cache: map<string, string>, t: Table, u: Table, next: seq<PeerConfig>)
    requires Toward(hex, cache, t, next, set p | p in next) && Toward(hex, cache, u, next, set p | p in next)
    ensures forall k :: k in t.peers ==> k in u.peers && t.peers[k] == u.peers[k]
    ensures forall a :: a in t.owner ==> a in u.owner && t.owner[a] == u.owner[a]
  {
    forall k | k in t.peers ensures k in u.peers && t.peers[k] == u.peers[k] {
      var p :| p in next && hex(p.publicKey) == Some(k);
      assert p in set p | p in next;
    }
    forall a | a in t.owner ensures a in u.owner && t.owner[a] == u.owner[a] {
      var p :| p in next && hex(p.publicKey) == Some(t.owner[a]);
      assert p in set p | p in next;
    }
  }

  lemma EmptyToward(hex: KeyCodec, cache: map<string, string>, next: seq<PeerConfig>)
    ensures Toward(hex, cache, EMPTY, next, {})
  {
  }

  /** A synced device is final for every peer of its list. */
  lemma SyncedToward(hex: KeyCodec, s: State, peers: seq<PeerConfig>)
    requires Distinct(peers) && InjectiveOn(hex, peers) && Synced(hex, s, peers)
    ensures Toward(hex, s.cache, s.table, peers, set p | p in peers) && WellFormed(s.table)
  {
    assert Toward(hex, s.cache, s.table, peers, set p | p in peers) ==> WellFormed(s.table);
    hide Toward, InstallAll;
    EmptyToward(hex, s.cache, peers);
    InstallAllToward(hex, State(EMPTY, s.cache, {}), peers, false, CALM, 0, peers, {});
    assert {} + (set p | p in peers) == set p | p in peers;
  }

  /** With every secret cached and well formed, building from scratch succeeds. */
  lemma {:induction false} ScratchSucceeds(hex: KeyCodec, s: State, ps: seq<PeerConfig>, n: nat)
    requires forall p :: p in ps ==> Usable(hex, s.cache, p) && IsHost(p.tunnelIP)
    ensures var (s', ok) := InstallAll(hex, s, ps, false, CALM, n); ok && s'.cache == s.cache && s'.failed == s.failed
    decreases ps
  {
    if ps != [] {
      var p := ps[0];
      assert p in ps;
      var dp := DevicePeer(p.publicKey, s.cache[p.psk], p.tunnelIP, None);
      assert Render(hex, dp, false).Lines?;
      var (s1, ok) := InstallOne(hex, s, p, false, CALM.store(n, p.psk), CALM.fault(n));
      assert ok && s1.cache == s.cache && s1.failed == s.failed;
      ScratchSucceeds(hex, s1, ps[1..], n + 1);
    }
  }

  lemma TowardSynced(hex: KeyCodec, s: State, peers: seq<PeerConfig>)
    requires Accepted(peers) && InjectiveOn(hex, peers)
    requires Toward(hex, s.cache, s.table, peers, set p | p in peers)
    ensures Synced(hex, s, peers)
  {
    forall p | p in peers ensures Usable(hex, s.cache, p) && IsHost(p.tunnelIP) {
      assert p in set p | p in peers;
    }
    hide Toward, InstallAll;
    var start := State(EMPTY, s.cache, {});
    ScratchSucceeds(hex, start, peers, 0);
    var built := InstallAll(hex, start, peers, false, CALM, 0).0;
    EmptyToward(hex, s.cache, peers);
    InstallAllToward(hex, start, peers, false, CALM, 0, peers, {});
    assert {} + (set p | p in peers) == set p | p in peers;
    TowardUnique(hex, s.cache, built.table, s.table, peers);
  }

  /** What being synced says outright: these peers, these secrets, these addresses, nothing else. */
  lemma SyncedTables(hex: KeyCodec, s: State, peers: seq<PeerConfig>)
    requires Distinct(peers) && InjectiveOn(hex, peers) && Synced(hex, s, peers)
    ensures forall p :: p in peers ==> Settled(hex, s.cache, s.table, p)
    ensures s.table.peers.Keys == Hexes(hex, peers)
    ensures s.table.owner.Keys == set p | p in peers :: p.tunnelIP
  {
    SyncedToward(hex, s, peers);
    forall p | p in peers ensures Settled(hex, s.cache, s.table, p) {
      assert p in set p | p in peers;
    }
    forall a | a in s.table.owner ensures exists p :: p in peers && p.tunnelIP == a {
      var p :| p in peers && hex(p.publicKey) == Some(s.table.owner[a]);
      assert p in set p | p in peers;
    }
  }

  // --------------------------------------------------------------------
  // Removals
  // --------------------------------------------------------------------

  function WithoutAll(t: Table, ks: set<Key>): Table {
    Table(t.peers - ks, map a | a in t.owner && t.owner[a] !in ks :: t.owner[a])
  }

  function Hexes(hex: KeyCodec, ps: seq<PeerConfig>): set<Key> {
    set p | p in ps && hex(p.publicKey).Some? :: hex(p.publicKey).value
  }

  lemma RemoveOneMeaning(hex: KeyCodec, s: State, p: PeerConfig, fault: Option<nat>)
    requires WellFormed(s.table) && RemoveOne(hex, s, p, fault).1
    ensures hex(p.publicKey).Some?
    ensures var s' := RemoveOne(hex, s, p, fault).0;
            s'.table == Without(s.table, hex(p.publicKey).value) && s'.cache == s.cache && WellFormed(s'.table)
  {
    RemoveMeaning(hex, s.table, p.publicKey);
  }

  lemma WithoutOneMore(t: Table, k: Key, ks: set<Key>)
    ensures WithoutAll(Without(t, k), ks) == WithoutAll(t, {k} + ks)
  {
  }

  lemma HexesOneMore(hex: KeyCodec, p: PeerConfig, ps: seq<PeerConfig>)
    requires hex(p.publicKey).Some?
    ensures Hexes(hex, [p] + ps) == {hex(p.publicKey).value} + Hexes(hex, ps)
  {
  }

  lemma {:induction false} RemoveAllMeaning(hex: KeyCodec, s: State, ps: seq<PeerConfig>, w: World, n: nat)
    requires WellFormed(s.table) && RemoveAll(hex, s, ps, w, n).1
    ensures var s' := RemoveAll(hex, s, ps, w, n).0;
              s'.table == WithoutAll(s.table, Hexes(hex, ps)) && s'.cache == s.cache
    decreases ps
  {
    hide WellFormed, RemoveOne;
    if ps != [] {
      var p := ps[0];
      var s1 := RemoveOne(hex, s, p, w.fault(n)).0;
      assert RemoveOne(hex, s, p, w.fault(n)).1 && RemoveAll(hex, s1, ps[1..], w, n + 1).1;
      RemoveOneMeaning(hex, s, p, w.fault(n));
      RemoveAllMeaning(hex, s1, ps[1..], w, n + 1);
      hide Without, WithoutAll, Hexes;
      assert ps == [p] + ps[1..];
      HexesOneMore(hex, p, ps[1..]);
      WithoutOneMore(s.table, hex(p.publicKey).value, Hexes(hex, ps[1..]));
    } else {
      assert WithoutAll(s.table, Hexes(hex, ps)) == s.table;
    }
  }

  /** A removed peer's key is no key of the new list. */
  lemma RemovedApart(hex: KeyCodec, prev: seq<PeerConfig>, next: seq<PeerConfig>, k: Key)
    requires InjectiveOn(hex, prev + next) && Listed(hex, k, next)
    ensures k !in Hexes(hex, DiffOf(prev, next).removed)
  {
    DiffMembers(prev, next);
    hide LastWith, DiffOf;
    var p :| p in next && hex(p.publicKey) == Some(k);
    forall q | q in DiffOf(prev, next).removed ensures hex(q.publicKey) != Some(k) {
      assert LastWith(next, q.publicKey).None? && q.publicKey != p.publicKey;
      assert q in prev + next && p in prev + next;
    }
  }

  /** Removing who left makes every unchanged peer final for the new list. */
  lemma RemovedSettled(hex: KeyCodec, cache: map<string, string>, t: Table, ks: set<Key>, p: PeerConfig)
    requires Settled(hex, cache, t, p) && hex(p.publicKey).value !in ks
    ensures Settled(hex, cache, WithoutAll(t, ks), p)
  {
  }

  lemma RemovalsToward(hex: KeyCodec, cache: map<string, string>, t: Table, prev: seq<PeerConfig>,
                       next: seq<PeerConfig>)
    requires InjectiveOn(hex, prev + next)
    requires Toward(hex, cache, t, prev, set p | p in prev)
    ensures var u := WithoutAll(t, Hexes(hex, DiffOf(prev, next).removed));
            Toward(hex, cache, u, next, set p | p in next && p in prev)
  {
    hide DiffOf, Hexes, InjectiveOn;
    var ks := Hexes(hex, DiffOf(prev, next).removed);
    var u := WithoutAll(t, ks);
    forall p | p in next && p in prev ensures Settled(hex, cache, u, p) {
      assert p in set p | p in prev;
      assert Listed(hex, hex(p.publicKey).value, next);
      RemovedApart(hex, prev, next, hex(p.publicKey).value);
      RemovedSettled(hex, cache, t, ks, p);
    }
    forall k | k in u.peers ensures Listed(hex, k, next) {
      SurvivorListed(hex, prev, next, k);
    }
    assert WellFormed(u);
    hide Settled, Listed, WellFormed;
    forall a, p | a in u.owner && p in next && p in prev && Some(u.owner[a]) == hex(p.publicKey)
      ensures a == p.tunnelIP
    {
      assert p in set p | p in prev;
    }
  }

  lemma SurvivorListed(hex: KeyCodec, prev: seq<PeerConfig>, next: seq<PeerConfig>, k: Key)
    requires Listed(hex, k, prev) && k !in Hexes(hex, DiffOf(prev, next).removed)
    ensures Listed(hex, k, next)
  {
    DiffMembers(prev, next);
    hide LastWith, DiffOf;
    var q :| q in prev && hex(q.publicKey) == Some(k);
    assert q !in DiffOf(prev, next).removed;
    assert LastWith(next, q.publicKey).value in next;
  }

  /** After the removals: unchanged peers final, changed peers present. */
  lemma RemovalStage(hex: KeyCodec, s: State, prev: seq<PeerConfig>, next: seq<PeerConfig>, w: World)
    requires Distinct(prev) && InjectiveOn(hex, prev + next) && Synced(hex, s, prev)
    requires RemoveAll(hex, s, DiffOf(prev, next).removed, w, 0).1
    ensures var s1 := RemoveAll(hex, s, DiffOf(prev, next).removed, w, 0).0;
            && Toward(hex, s1.cache, s1.table, next, set p | p in next && p in prev)
            && forall p :: p in DiffOf(prev, next).changed && hex(p.publicKey).Some? ==>
                 hex(p.publicKey).value in s1.table.peers
  {
    InjectiveParts(hex, prev, next);
    hide Toward, RemoveAll, LastWith, DiffOf, Synced, InjectiveOn, Hexes, WithoutAll, WellFormed;
    SyncedToward(hex, s, prev);
    RemoveAllMeaning(hex, s, DiffOf(prev, next).removed, w, 0);
    RemovalsToward(hex, s.cache, s.table, prev, next);
    ChangedSurvive(hex, s, prev, next);
  }

  /**
   If the device mirrors `prev` and no call in applying the diff fails, it
   mirrors `next`: keys, keys' secrets, and which key owns which address.
   */
  lemma ApplyDiffConverges(hex: KeyCodec, s: State, prev: seq<PeerConfig>, next: seq<PeerConfig>, w: World)
    requires Accepted(prev) && Accepted(next) && InjectiveOn(hex, prev + next)
    requires Synced(hex, s, prev)
    requires Apply(hex, s, DiffOf(prev, next), w).1
    ensures Synced(hex, Apply(hex, s, DiffOf(prev, next), w).0, next)
  {
    var d := DiffOf(prev, next);
    hide Toward, InstallAll, RemoveAll, LastWith, DiffOf, Synced, InjectiveOn;
    RemovalStage(hex, s, prev, next, w);
    InjectiveParts(hex, prev, next);
    DiffMembers(prev, next);
    EveryPeerHandled(prev, next);
    InstallsFinish(hex, RemoveAll(hex, s, d.removed, w, 0).0, d, w, next, set p | p in next && p in prev);
  }

  /** From the unchanged peers final, adding and changing the rest syncs the device. */
  lemma InstallsFinish(hex: KeyCodec, s: State, d: Diff, w: World, next: seq<PeerConfig>, kept: set<PeerConfig>)
    requires Accepted(next) && InjectiveOn(hex, next) && Toward(hex, s.cache, s.table, next, kept)
    requires forall p :: p in d.added || p in d.changed ==> p in next
    requires forall p :: p in d.changed && hex(p.publicKey).Some? ==> hex(p.publicKey).value in s.table.peers
    requires kept + (set p | p in d.added) + (set p | p in d.changed) == set p | p in next
    requires var (s2, ok) := InstallAll(hex, s, d.added, false, w, |d.removed|);
             ok && InstallAll(hex, s2, d.changed, true, w, |d.removed| + |d.added|).1
    ensures var s2 := InstallAll(hex, s, d.added, false, w, |d.removed|).0;
            Synced(hex, InstallAll(hex, s2, d.changed, true, w, |d.removed| + |d.added|).0, next)
  {
    hide Toward, InstallAll, Synced, InjectiveOn;
    InstallAllToward(hex, s, d.added, false, w, |d.removed|, next, kept);
    var s2 := InstallAll(hex, s, d.added, false, w, |d.removed|).0;
    InstallAllToward(hex, s2, d.changed, true, w, |d.removed| + |d.added|, next, kept + set p | p in d.added);
    TowardSynced(hex, InstallAll(hex, s2, d.changed, true, w, |d.removed| + |d.added|).0, next);
  }

  lemma InjectiveParts(hex: KeyCodec, prev: seq<PeerConfig>, next: seq<PeerConfig>)
    requires InjectiveOn(hex, prev + next)
    ensures InjectiveOn(hex, prev) && InjectiveOn(hex, next)
  {
    assert forall p :: p in prev || p in next ==> p in prev + next;
  }

  /** The changed peers are on the device after the removals. */
  lemma ChangedSurvive(hex: KeyCodec, s: State, prev: seq<PeerConfig>, next: seq<PeerConfig>)
    requires InjectiveOn(hex, prev + next) && Toward(hex, s.cache, s.table, prev, set p | p in prev)
    ensures forall p :: p in DiffOf(prev, next).changed && hex(p.publicKey).Some? ==>
              hex(p.publicKey).value in WithoutAll(s.table, Hexes(hex, DiffOf(prev, next).removed)).peers
  {
    DiffMembers(prev, next);
    forall p | p in DiffOf(prev, next).changed && hex(p.publicKey).Some?
      ensures hex(p.publicKey).value in WithoutAll(s.table, Hexes(hex, DiffOf(prev, next).removed)).peers
    {
      hide LastWith, DiffOf;
      var was := LastWith(prev, p.publicKey).value;
      assert was in set p | p in prev;
      assert Listed(hex, hex(p.publicKey).value, next);
      RemovedApart(hex, prev, next, hex(p.publicKey).value);
    }
  }

  lemma EveryPeerHandled(prev: seq<PeerConfig>, next: seq<PeerConfig>)
    ensures var d := DiffOf(prev, next);
            (set p | p in next && p in prev) + (set p | p in d.added) + (set p | p in d.changed) == set p | p in next
  {
    DiffMembers(prev, next);
    hide LastWith, DiffOf;
  }

  lemma TowardCache(hex: KeyCodec, cache: map<string, string>, cache': map<string, string>, t: Table,
                    next: seq<PeerConfig>, done: set<PeerConfig>)
    requires Toward(hex, cache, t, next, done)
    requires forall p :: p in done && p.psk in cache ==> p.psk in cache' && cache'[p.psk] == cache[p.psk]
    ensures Toward(hex, cache', t, next, done)
  {
    hide Listed, WellFormed;
    forall p | p in done ensures Settled(hex, cache', t, p) {
      assert Settled(hex, cache, t, p);
    }
  }

  /** Pruning the cache to the references of the list keeps the device synced with it. */
  lemma PruneKeepsSynced(hex: KeyCodec, s: State, peers: seq<PeerConfig>, inUse: set<string>)
    requires Accepted(peers) && InjectiveOn(hex, peers) && Synced(hex, s, peers)
    requires forall p :: p in peers ==> p.psk in inUse
    ensures Synced(hex, Prune(s, inUse), peers)
  {
    var s' := Prune(s, inUse);
    hide Synced, InjectiveOn, Toward, Distinct, IsHost;
    SyncedToward(hex, s, peers);
    TowardCache(hex, s.cache, s'.cache, s.table, peers, set p | p in peers);
    hide Accepted;
    TowardSynced(hex, s', peers);
  }
}
