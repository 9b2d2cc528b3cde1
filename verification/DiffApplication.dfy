/**
 A diff applied to the device through the secret cache, call by call: what each
 peer's own call achieves whatever becomes of the others.
 */
module DiffApplication {
  import opened Prelude
  import opened Addresses
  import opened Peers
  import opened Device
  import opened Reload

  // --------------------------------------------------------------------
  // Secrets
  // --------------------------------------------------------------------

  /** The peers with a block to apply, in the order of their calls. */
  function Installs(d: Diff): seq<PeerConfig> {
    d.added + d.changed
  }

  function FirstAnswer(ps: seq<PeerConfig>, w: World, n: nat, ref: string): Option<string> {
    if ps == [] then None
    else if ps[0].psk == ref && w.store(n, ref).Some? then w.store(n, ref)
    else FirstAnswer(ps[1..], w, n + 1, ref)
  }

  /** The secret the i-th call finds: the cached one, or the first the store has given for the reference. */
  function SecretFor(cache: map<string, string>, ps: seq<PeerConfig>, w: World, n: nat, i: nat): Option<string>
    requires i < |ps|
  {
    if ps[i].psk in cache then Some(cache[ps[i].psk]) else FirstAnswer(ps[..i + 1], w, n, ps[i].psk)
  }

  function Cached(cache: map<string, string>, ref: string, answer: Option<string>): map<string, string> {
    if ref in cache || answer.None? then cache else cache[ref := answer.value]
  }

  /** The first call leaves the later ones the secrets they would have found. */
  lemma SecretNext(cache: map<string, string>, ps: seq<PeerConfig>, w: World, n: nat, i: nat)
    requires 0 < i < |ps|
    ensures SecretFor(cache, ps, w, n, i) ==
            SecretFor(Cached(cache, ps[0].psk, w.store(n, ps[0].psk)), ps[1..], w, n + 1, i - 1)
  {
    assert ps[..i + 1][1..] == ps[1..][..i];
  }

  lemma SecretFirst(cache: map<string, string>, ps: seq<PeerConfig>, w: World, n: nat)
    requires ps != []
    ensures SecretFor(cache, ps, w, n, 0) ==
            if ps[0].psk in cache then Some(cache[ps[0].psk]) else w.store(n, ps[0].psk)
  {
    var ref := ps[0].psk;
    assert ps[..0 + 1] == [ps[0]] && [ps[0]][1..] == [];
    assert FirstAnswer([ps[0]][1..], w, n + 1, ref) == None;
    assert FirstAnswer([ps[0]], w, n, ref) == w.store(n, ref);
  }

  /** The cache after a sequence of calls answers the calls that follow it. */
  lemma {:induction false} SecretAcross(hex: KeyCodec, s: State, ps: seq<PeerConfig>, updateOnly: bool,
                                        qs: seq<PeerConfig>, w: World, n: nat, i: nat)
    requires i < |qs|
    ensures SecretFor(s.cache, ps + qs, w, n, |ps| + i) ==
            SecretFor(InstallAll(hex, s, ps, updateOnly, w, n).0.cache, qs, w, n + |ps|, i)
    decreases ps
  {
    hide SecretFor, ApplyPeer;
    if ps == [] {
      assert ps + qs == qs;
    } else {
      var s' := InstallOne(hex, s, ps[0], updateOnly, w.store(n, ps[0].psk), w.fault(n)).0;
      assert s'.cache == Cached(s.cache, ps[0].psk, w.store(n, ps[0].psk));
      assert (ps + qs)[1..] == ps[1..] + qs;
      SecretNext(s.cache, ps + qs, w, n, |ps| + i);
      SecretAcross(hex, s', ps[1..], updateOnly, qs, w, n + 1, i);
    }
  }

  // --------------------------------------------------------------------
  // What is reported
  // --------------------------------------------------------------------

  /** A call succeeds with a secret, a block that renders, and a device that takes it. */
  predicate InstallSucceeds(hex: KeyCodec, p: PeerConfig, secret: Option<string>, fault: Option<nat>) {
    && secret.Some? && hex(p.publicKey).Some? && hex(secret.value).Some? && InSubnet(p.tunnelIP) && fault.None?
  }

  predicate RemovalSucceeds(hex: KeyCodec, p: PeerConfig, fault: Option<nat>) {
    hex(p.publicKey).Some? && fault.None?
  }

  ghost predicate AllSucceed(hex: KeyCodec, cache: map<string, string>, d: Diff, w: World) {
    && RemovalsSucceed(hex, d.removed, w, 0)
    && InstallsSucceed(hex, cache, Installs(d), w, |d.removed|)
  }

  ghost predicate RemovalsSucceed(hex: KeyCodec, ps: seq<PeerConfig>, w: World, n: nat) {
    forall i :: 0 <= i < |ps| ==> RemovalSucceeds(hex, ps[i], w.fault(n + i))
  }

  /** Each call of the sequence succeeds, the first being the n-th of the diff. */
  ghost predicate InstallsSucceed(hex: KeyCodec, cache: map<string, string>, ps: seq<PeerConfig>, w: World, n: nat) {
    forall i :: 0 <= i < |ps| ==> InstallSucceeds(hex, ps[i], SecretFor(cache, ps, w, n, i), w.fault(n + i))
  }

  lemma InstallReport(hex: KeyCodec, s: State, p: PeerConfig, updateOnly: bool, answer: Option<string>,
                      fault: Option<nat>)
    ensures InstallOne(hex, s, p, updateOnly, answer, fault).1 <==>
            InstallSucceeds(hex, p, if p.psk in s.cache then Some(s.cache[p.psk]) else answer, fault)
    ensures InstallOne(hex, s, p, updateOnly, answer, fault).0.cache == Cached(s.cache, p.psk, answer)
  {
    hide FeedAll;
  }

  lemma SucceedNext(hex: KeyCodec, cache: map<string, string>, ps: seq<PeerConfig>, w: World, n: nat)
    requires ps != []
    ensures var cache' := Cached(cache, ps[0].psk, w.store(n, ps[0].psk));
            InstallsSucceed(hex, cache, ps, w, n) <==>
            && InstallSucceeds(hex, ps[0], SecretFor(cache, ps, w, n, 0), w.fault(n))
            && InstallsSucceed(hex, cache', ps[1..], w, n + 1)
  {
    var cache' := Cached(cache, ps[0].psk, w.store(n, ps[0].psk));
    forall i | 0 < i < |ps|
      ensures SecretFor(cache, ps, w, n, i) == SecretFor(cache', ps[1..], w, n + 1, i - 1)
      ensures ps[i] == ps[1..][i - 1] && w.fault(n + i) == w.fault(n + 1 + (i - 1))
    {
      SecretNext(cache, ps, w, n, i);
    }
    hide SecretFor, InstallSucceeds, Cached;
    assert w.fault(n + 0) == w.fault(n);
    if InstallsSucceed(hex, cache, ps, w, n) {
      forall i | 0 <= i < |ps| - 1
        ensures InstallSucceeds(hex, ps[1..][i], SecretFor(cache', ps[1..], w, n + 1, i), w.fault(n + 1 + i))
      {
        assert InstallSucceeds(hex, ps[i + 1], SecretFor(cache, ps, w, n, i + 1), w.fault(n + (i + 1)));
      }
    }
  }

  lemma {:induction false} InstallsReport(hex: KeyCodec, s: State, ps: seq<PeerConfig>, updateOnly: bool, w: World,
                                          n: nat)
    ensures InstallAll(hex, s, ps, updateOnly, w, n).1 <==> InstallsSucceed(hex, s.cache, ps, w, n)
    decreases ps
  {
    if ps != [] {
      var s' := InstallOne(hex, s, ps[0], updateOnly, w.store(n, ps[0].psk), w.fault(n)).0;
      InstallReport(hex, s, ps[0], updateOnly, w.store(n, ps[0].psk), w.fault(n));
      SecretFirst(s.cache, ps, w, n);
      hide InstallOne, SecretFor, InstallSucceeds, Cached, InstallsSucceed;
      SucceedNext(hex, s.cache, ps, w, n);
      InstallsReport(hex, s', ps[1..], updateOnly, w, n + 1);
    }
  }

  /** Calls in sequence succeed when the first ones do, and the others from the cache they leave. */
  lemma {:induction false} SucceedAcross(hex: KeyCodec, s: State, ps: seq<PeerConfig>, updateOnly: bool,
                                         qs: seq<PeerConfig>, w: World, n: nat)
    ensures InstallsSucceed(hex, s.cache, ps + qs, w, n) <==>
            && InstallsSucceed(hex, s.cache, ps, w, n)
            && InstallsSucceed(hex, InstallAll(hex, s, ps, updateOnly, w, n).0.cache, qs, w, n + |ps|)
    decreases ps
  {
    hide InstallOne, SecretFor, InstallSucceeds, Cached, InstallsSucceed;
    if ps == [] {
      assert ps + qs == qs;
      NoneToFail(hex, s.cache, w, n);
    } else {
      var s' := InstallOne(hex, s, ps[0], updateOnly, w.store(n, ps[0].psk), w.fault(n)).0;
      InstallReport(hex, s, ps[0], updateOnly, w.store(n, ps[0].psk), w.fault(n));
      assert InstallAll(hex, s, ps, updateOnly, w, n).0 == InstallAll(hex, s', ps[1..], updateOnly, w, n + 1).0;
      hide InstallAll;
      SucceedAcross(hex, s', ps[1..], updateOnly, qs, w, n + 1);
      assert (ps + qs)[1..] == ps[1..] + qs && (ps + qs)[0] == ps[0];
      SecretFirst(s.cache, ps, w, n);
      SecretFirst(s.cache, ps + qs, w, n);
      SucceedNext(hex, s.cache, ps, w, n);
      SucceedNext(hex, s.cache, ps + qs, w, n);
    }
  }

  lemma NoneToFail(hex: KeyCodec, cache: map<string, string>, w: World, n: nat)
    ensures InstallsSucceed(hex, cache, [], w, n)
  {
  }

  lemma RemovalsSucceedNext(hex: KeyCodec, ps: seq<PeerConfig>, w: World, n: nat)
    requires ps != []
    ensures RemovalsSucceed(hex, ps, w, n) <==>
              RemovalSucceeds(hex, ps[0], w.fault(n)) && RemovalsSucceed(hex, ps[1..], w, n + 1)
  {
    hide RemovalSucceeds;
    assert w.fault(n + 0) == w.fault(n);
    forall i | 0 < i < |ps| ensures ps[i] == ps[1..][i - 1] && w.fault(n + i) == w.fault(n + 1 + (i - 1)) {}
    if RemovalsSucceed(hex, ps, w, n) {
      forall i | 0 <= i < |ps| - 1 ensures RemovalSucceeds(hex, ps[1..][i], w.fault(n + 1 + i)) {
        assert RemovalSucceeds(hex, ps[i + 1], w.fault(n + (i + 1)));
      }
    }
  }

  lemma RemovalReport(hex: KeyCodec, s: State, p: PeerConfig, fault: Option<nat>)
    ensures RemoveOne(hex, s, p, fault).1 <==> RemovalSucceeds(hex, p, fault)
    ensures RemoveOne(hex, s, p, fault).0.cache == s.cache
  {
    hide FeedAll;
  }

  lemma {:induction false} RemovalsReport(hex: KeyCodec, s: State, ps: seq<PeerConfig>, w: World, n: nat)
    ensures RemoveAll(hex, s, ps, w, n).1 <==> RemovalsSucceed(hex, ps, w, n)
    ensures RemoveAll(hex, s, ps, w, n).0.cache == s.cache
    decreases ps
  {
    hide RemoveOne, RemovalSucceeds;
    if ps != [] {
      RemovalReport(hex, s, ps[0], w.fault(n));
      RemovalsSucceedNext(hex, ps, w, n);
      hide RemovalsSucceed;
      RemovalsReport(hex, RemoveOne(hex, s, ps[0], w.fault(n)).0, ps[1..], w, n + 1);
    }
  }

  /** The states between the three stages. */
  function Revoked(hex: KeyCodec, s: State, d: Diff, w: World): State {
    RemoveAll(hex, s, d.removed, w, 0).0
  }

  function Extended(hex: KeyCodec, s: State, d: Diff, w: World): State {
    InstallAll(hex, Revoked(hex, s, d, w), d.added, false, w, |d.removed|).0
  }

  /** Each stage's calls find the secrets that the whole sequence says. */
  lemma StageSecrets(hex: KeyCodec, s: State, d: Diff, w: World, i: nat)
    requires i < |Installs(d)|
    ensures var n, m := |d.removed|, |d.added|;
            SecretFor(s.cache, Installs(d), w, n, i) ==
            if i < m then SecretFor(Revoked(hex, s, d, w).cache, d.added, w, n, i)
            else SecretFor(Extended(hex, s, d, w).cache, d.changed, w, n + m, i - m)
  {
    hide InstallAll, RemoveAll;
    RemovalsReport(hex, s, d.removed, w, 0);
    if i < |d.added| {
      assert Installs(d)[..i + 1] == d.added[..i + 1];
    } else {
      SecretAcross(hex, Revoked(hex, s, d, w), d.added, false, d.changed, w, |d.removed|, i - |d.added|);
    }
  }

  /** Success is reported exactly when every peer's own call succeeds. */
  lemma ReportExact(hex: KeyCodec, s: State, d: Diff, w: World)
    ensures Apply(hex, s, d, w).1 <==> AllSucceed(hex, s.cache, d, w)
  {
    var n := |d.removed|;
    var s1, s2 := Revoked(hex, s, d, w), Extended(hex, s, d, w);
    hide InstallAll, RemoveAll, RemovalsSucceed, InstallsSucceed, SecretFor;
    RemovalsReport(hex, s, d.removed, w, 0);
    InstallsReport(hex, s1, d.added, false, w, n);
    InstallsReport(hex, s2, d.changed, true, w, n + |d.added|);
    SucceedAcross(hex, s1, d.added, false, d.changed, w, n);
  }

  /** What is cached stays cached with its value, whatever the store would say now. */
  lemma {:induction false} InstallsCache(hex: KeyCodec, s: State, ps: seq<PeerConfig>, updateOnly: bool, w: World,
                                         n: nat)
    ensures var cache := InstallAll(hex, s, ps, updateOnly, w, n).0.cache;
            forall ref :: ref in s.cache ==> ref in cache && cache[ref] == s.cache[ref]
    decreases ps
  {
    hide InstallOne;
    if ps != [] {
      var s' := InstallOne(hex, s, ps[0], updateOnly, w.store(n, ps[0].psk), w.fault(n)).0;
      InstallReport(hex, s, ps[0], updateOnly, w.store(n, ps[0].psk), w.fault(n));
      assert forall ref :: ref in s.cache ==> ref in s'.cache && s'.cache[ref] == s.cache[ref];
      InstallsCache(hex, s', ps[1..], updateOnly, w, n + 1);
      assert InstallAll(hex, s, ps, updateOnly, w, n).0 == InstallAll(hex, s', ps[1..], updateOnly, w, n + 1).0;
    }
  }

  lemma ApplyCache(hex: KeyCodec, s: State, d: Diff, w: World)
    ensures var cache := Apply(hex, s, d, w).0.cache;
            forall ref :: ref in s.cache ==> ref in cache && cache[ref] == s.cache[ref]
  {
    hide InstallAll, RemoveAll;
    RemovalsReport(hex, s, d.removed, w, 0);
    InstallsCache(hex, Revoked(hex, s, d, w), d.added, false, w, |d.removed|);
    InstallsCache(hex, Extended(hex, s, d, w), d.changed, true, w, |d.removed| + |d.added|);
  }

  // --------------------------------------------------------------------
  // What each call leaves on the device
  // --------------------------------------------------------------------

  /** The peer with this secret and its address, and no other address. */
  predicate OnTable(hex: KeyCodec, t: Table, p: PeerConfig, secret: Option<string>) {
    && hex(p.publicKey).Some? && secret.Some?
    && var k := hex(p.publicKey).value;
       && k in t.peers && t.peers[k].psk.Some? && t.peers[k].psk == hex(secret.value)
       && p.tunnelIP in t.owner && t.owner[p.tunnelIP] == k
       && forall a :: a in t.owner && t.owner[a] == k ==> a == p.tunnelIP
  }

  /** No later call of the diff names the i-th peer's key or takes its address. */
  predicate LastWord(hex: KeyCodec, ps: seq<PeerConfig>, i: nat)
    requires i < |ps|
  {
    forall j :: i < j < |ps| ==> hex(ps[j].publicKey) != hex(ps[i].publicKey) && ps[j].tunnelIP != ps[i].tunnelIP
  }

  /** On the device before the diff, and not named by one of its removals. */
  predicate StaysOn(hex: KeyCodec, t: Table, d: Diff, p: PeerConfig) {
    && hex(p.publicKey).Some? && hex(p.publicKey).value in t.peers
    && forall q :: q in d.removed ==> hex(q.publicKey) != hex(p.publicKey)
  }

  /** Whatever other calls did, a peer whose own call succeeded has its key, secret and address on the device. */
  predicate InstalledWhereCalled(hex: KeyCodec, cache: map<string, string>, t: Table, d: Diff, w: World, after: Table) {
    forall i :: 0 <= i < |Installs(d)| ==>
      var p, n, secret := Installs(d)[i], |d.removed|, SecretFor(cache, Installs(d), w, |d.removed|, i);
      InstallSucceeds(hex, p, secret, w.fault(n + i)) && LastWord(hex, Installs(d), i)
        && (i < |d.added| || StaysOn(hex, t, d, p)) ==>
        OnTable(hex, after, p, secret)
  }

  lemma NamesOneKey(hex: KeyCodec, p: DevicePeer, updateOnly: bool)
    requires Render(hex, p, updateOnly).Lines? && p.endpoint.None?
    ensures var lines := Render(hex, p, updateOnly).lines;
            && (forall l :: l in lines && l.PublicKey? ==> l.key == hex(p.publicKey).value)
            && (forall l :: l in lines ==> !l.Remove?)
            && (forall a :: AllowedIP(a) in lines ==> a == p.allowedIP)
  {
  }

  /** What any one install leaves alone, however far it got. */
  lemma InstallLeaves(hex: KeyCodec, s: State, q: PeerConfig, updateOnly: bool, answer: Option<string>,
                      fault: Option<nat>)
    requires WellFormed(s.table)
    ensures var t, t' := s.table, InstallOne(hex, s, q, updateOnly, answer, fault).0.table;
            && WellFormed(t') && t.peers.Keys <= t'.peers.Keys
            && (forall k :: k in t'.peers && Some(k) != hex(q.publicKey) ==> k in t.peers && t'.peers[k] == t.peers[k])
            && (forall a :: a in t'.owner && Some(t'.owner[a]) != hex(q.publicKey) ==>
                 a in t.owner && t.owner[a] == t'.owner[a])
            && (forall a :: a in t.owner && Some(t.owner[a]) != hex(q.publicKey) && a != q.tunnelIP ==>
                 a in t'.owner && t'.owner[a] == t.owner[a])
  {
    var cache := Resolved(s, answer, q.psk).cache;
    if q.psk in cache {
      var dp := DevicePeer(q.publicKey, cache[q.psk], q.tunnelIP, None);
      var r := Render(hex, dp, updateOnly);
      if r.Lines? {
        NamesOneKey(hex, dp, updateOnly);
        var fed := if fault.Some? && fault.value < |r.lines| then r.lines[..fault.value] else r.lines;
        assert InstallOne(hex, s, q, updateOnly, answer, fault).0.table == FeedAll(s.table, Dummy, fed);
        assert forall l :: l in fed ==> l in r.lines;
        hide Render, FeedAll, InstallOne, Resolved, WellFormed;
        BlockLeaves(s.table, fed, hex(q.publicKey).value, q.tunnelIP);
      }
    }
  }

  lemma BlockLeaves(t: Table, lines: seq<Line>, j: Key, ip: Addr)
    requires WellFormed(t) && forall l :: l in lines ==> (l.PublicKey? ==> l.key == j) && !l.Remove?
    requires forall a :: AllowedIP(a) in lines ==> a == ip
    ensures var t' := FeedAll(t, Dummy, lines);
            && WellFormed(t') && t.peers.Keys <= t'.peers.Keys
            && (forall k :: k in t'.peers && k != j ==> k in t.peers && t'.peers[k] == t.peers[k])
            && (forall a :: a in t'.owner && t'.owner[a] != j ==> a in t.owner && t.owner[a] == t'.owner[a])
            && (forall a :: a in t.owner && t.owner[a] != j && a != ip ==> a in t'.owner && t'.owner[a] == t.owner[a])
  {
    var t' := FeedAll(t, Dummy, lines);
    OnlyNamedKey(t, Dummy, lines, j);
    NothingRemoved(t, Dummy, lines, t.peers.Keys);
    hide FeedAll, WellFormed;
    forall k | k in t'.peers && k != j ensures k in t.peers && t'.peers[k] == t.peers[k] {
      assert k in t'.peers.Keys + {j};
    }
    forall a | a in t'.owner && t'.owner[a] != j ensures a in t.owner && t.owner[a] == t'.owner[a] {
      OthersAddresses(t, Dummy, lines, j, t'.owner[a]);
    }
    forall a | a in t.owner && t.owner[a] != j && a != ip ensures a in t'.owner && t'.owner[a] == t.owner[a] {
      OthersAddresses(t, Dummy, lines, j, t.owner[a]);
    }
  }

  lemma InstallKeeps(hex: KeyCodec, s: State, q: PeerConfig, updateOnly: bool, answer: Option<string>,
                     fault: Option<nat>, p: PeerConfig, secret: Option<string>)
    requires WellFormed(s.table) && OnTable(hex, s.table, p, secret)
    requires hex(q.publicKey) != hex(p.publicKey) && q.tunnelIP != p.tunnelIP
    ensures OnTable(hex, InstallOne(hex, s, q, updateOnly, answer, fault).0.table, p, secret)
  {
    InstallLeaves(hex, s, q, updateOnly, answer, fault);
    hide InstallOne, WellFormed;
  }

  lemma InstallPuts(hex: KeyCodec, s: State, p: PeerConfig, updateOnly: bool, answer: Option<string>,
                    fault: Option<nat>)
    requires WellFormed(s.table)
    requires var secret := if p.psk in s.cache then Some(s.cache[p.psk]) else answer;
             InstallSucceeds(hex, p, secret, fault)
    requires updateOnly ==> hex(p.publicKey).value in s.table.peers
    ensures var secret := if p.psk in s.cache then Some(s.cache[p.psk]) else answer;
            OnTable(hex, InstallOne(hex, s, p, updateOnly, answer, fault).0.table, p, secret)
  {
    var secret := if p.psk in s.cache then Some(s.cache[p.psk]) else answer;
    var dp := DevicePeer(p.publicKey, secret.value, p.tunnelIP, None);
    BlockMeaning(hex, s.table, dp, updateOnly);
    assert InstallOne(hex, s, p, updateOnly, answer, fault).0.table
        == Installed(s.table, hex(p.publicKey).value, dp, hex(secret.value).value) by {
      hide FeedAll, Installed;
    }
  }

  lemma {:induction false} InstallsKeep(hex: KeyCodec, s: State, ps: seq<PeerConfig>, updateOnly: bool, w: World,
                                        n: nat, p: PeerConfig, secret: Option<string>)
    requires WellFormed(s.table) && OnTable(hex, s.table, p, secret)
    requires forall q :: q in ps ==> hex(q.publicKey) != hex(p.publicKey) && q.tunnelIP != p.tunnelIP
    ensures OnTable(hex, InstallAll(hex, s, ps, updateOnly, w, n).0.table, p, secret)
    decreases ps
  {
    hide OnTable, InstallOne, WellFormed;
    if ps != [] {
      InstallKeeps(hex, s, ps[0], updateOnly, w.store(n, ps[0].psk), w.fault(n), p, secret);
      InstallLeaves(hex, s, ps[0], updateOnly, w.store(n, ps[0].psk), w.fault(n));
      InstallsKeep(hex, InstallOne(hex, s, ps[0], updateOnly, w.store(n, ps[0].psk), w.fault(n)).0, ps[1..],
        updateOnly, w, n + 1, p, secret);
    }
  }

  lemma {:induction false} InstallsPut(hex: KeyCodec, s: State, ps: seq<PeerConfig>, updateOnly: bool, w: World,
                                       n: nat, i: nat)
    requires WellFormed(s.table) && i < |ps| && LastWord(hex, ps, i)
    requires InstallSucceeds(hex, ps[i], SecretFor(s.cache, ps, w, n, i), w.fault(n + i))
    requires updateOnly ==> hex(ps[i].publicKey).value in s.table.peers
    ensures OnTable(hex, InstallAll(hex, s, ps, updateOnly, w, n).0.table, ps[i],
              SecretFor(s.cache, ps, w, n, i))
    decreases ps
  {
    var answer, fault := w.store(n, ps[0].psk), w.fault(n);
    var s' := InstallOne(hex, s, ps[0], updateOnly, answer, fault).0;
    if i == 0 {
      FirstPuts(hex, s, ps, updateOnly, w, n);
    } else {
      InstallLeaves(hex, s, ps[0], updateOnly, answer, fault);
      InstallReport(hex, s, ps[0], updateOnly, answer, fault);
      assert ps[..1] + ps[1..] == ps;
      LaterWord(hex, ps[..1], ps[1..], i - 1);
      assert hex(ps[i].publicKey).Some?;
      hide OnTable, InstallOne, WellFormed, SecretFor, InstallSucceeds, Cached, LastWord;
      SecretNext(s.cache, ps, w, n, i);
      assert w.fault(n + 1 + (i - 1)) == w.fault(n + i);
      InstallsPut(hex, s', ps[1..], updateOnly, w, n + 1, i - 1);
    }
  }

  lemma FirstPuts(hex: KeyCodec, s: State, ps: seq<PeerConfig>, updateOnly: bool, w: World, n: nat)
    requires WellFormed(s.table) && ps != [] && LastWord(hex, ps, 0)
    requires InstallSucceeds(hex, ps[0], SecretFor(s.cache, ps, w, n, 0), w.fault(n))
    requires updateOnly ==> hex(ps[0].publicKey).value in s.table.peers
    ensures OnTable(hex, InstallAll(hex, s, ps, updateOnly, w, n).0.table, ps[0], SecretFor(s.cache, ps, w, n, 0))
  {
    var answer, fault := w.store(n, ps[0].psk), w.fault(n);
    hide OnTable, InstallOne, WellFormed, SecretFor, InstallSucceeds;
    InstallLeaves(hex, s, ps[0], updateOnly, answer, fault);
    SecretFirst(s.cache, ps, w, n);
    InstallPuts(hex, s, ps[0], updateOnly, answer, fault);
    forall q | q in ps[1..] ensures hex(q.publicKey) != hex(ps[0].publicKey) && q.tunnelIP != ps[0].tunnelIP {
      var j :| 0 <= j < |ps[1..]| && ps[1..][j] == q;
      assert ps[j + 1] == q;
    }
    InstallsKeep(hex, InstallOne(hex, s, ps[0], updateOnly, answer, fault).0, ps[1..], updateOnly, w, n + 1, ps[0],
      SecretFor(s.cache, ps, w, n, 0));
  }

  /** Every key stays through the installs, and every other key's entry and addresses are left alone. */
  lemma {:induction false} InstallsGrow(hex: KeyCodec, s: State, ps: seq<PeerConfig>, updateOnly: bool, w: World,
                                        n: nat)
    requires WellFormed(s.table)
    ensures var t := InstallAll(hex, s, ps, updateOnly, w, n).0.table;
            && WellFormed(t) && s.table.peers.Keys <= t.peers.Keys
            && forall k :: k in t.peers ==> k in s.table.peers || exists p :: p in ps && hex(p.publicKey) == Some(k)
    decreases ps
  {
    hide InstallOne, WellFormed;
    if ps != [] {
      var s' := InstallOne(hex, s, ps[0], updateOnly, w.store(n, ps[0].psk), w.fault(n)).0;
      InstallLeaves(hex, s, ps[0], updateOnly, w.store(n, ps[0].psk), w.fault(n));
      InstallsGrow(hex, s', ps[1..], updateOnly, w, n + 1);
      assert ps == [ps[0]] + ps[1..];
    }
  }

  /** One removal, however far it got, concerns its own key only. */
  lemma RemovalLeaves(hex: KeyCodec, s: State, q: PeerConfig, fault: Option<nat>)
    requires WellFormed(s.table)
    ensures var t' := RemoveOne(hex, s, q, fault).0.table;
            && WellFormed(t')
            && (forall k :: Some(k) != hex(q.publicKey) ==> (k in t'.peers <==> k in s.table.peers))
            && (fault.None? && hex(q.publicKey).Some? ==> hex(q.publicKey).value !in t'.peers)
  {
    if hex(q.publicKey).Some? {
      var k, lines := hex(q.publicKey).value, [PublicKey(hex(q.publicKey).value), Remove];
      RemoveMeaning(hex, s.table, q.publicKey);
      var fed := if fault.Some? && fault.value < |lines| then lines[..fault.value] else lines;
      OnlyNamedKey(s.table, Dummy, fed, k);
      assert RemoveOne(hex, s, q, fault).0.table == FeedAll(s.table, Dummy, fed);
      var t' := FeedAll(s.table, Dummy, fed);
      hide FeedAll, RemovePeer, WellFormed;
      assert forall j :: j != k ==> (j in t'.peers <==> j in t'.peers.Keys + {k});
      assert forall j :: j != k ==> (j in s.table.peers <==> j in s.table.peers.Keys + {k});
    }
  }

  lemma {:induction false} RemovalsLeave(hex: KeyCodec, s: State, ps: seq<PeerConfig>, w: World, n: nat)
    requires WellFormed(s.table)
    ensures var t := RemoveAll(hex, s, ps, w, n).0.table;
            && WellFormed(t)
            && (forall k :: (forall q :: q in ps ==> hex(q.publicKey) != Some(k)) ==>
                 (k in t.peers <==> k in s.table.peers))
            && (forall k :: k in t.peers && k !in s.table.peers ==> Erred(hex, ps, w, n, k))
    decreases ps
  {
    hide RemoveOne, WellFormed;
    if ps != [] {
      var s' := RemoveOne(hex, s, ps[0], w.fault(n)).0;
      RemovalLeaves(hex, s, ps[0], w.fault(n));
      RemovalsLeave(hex, s', ps[1..], w, n + 1);
      assert ps == [ps[0]] + ps[1..];
      var t := RemoveAll(hex, s, ps, w, n).0.table;
      assert t == RemoveAll(hex, s', ps[1..], w, n + 1).0.table;
      forall k | k in t.peers && k !in s.table.peers ensures Erred(hex, ps, w, n, k) {
        if k in s'.table.peers {
          assert hex(ps[0].publicKey) == Some(k) && w.fault(n + 0).Some?;
        } else {
          var i :| 0 <= i < |ps[1..]| && hex(ps[1..][i].publicKey) == Some(k) && w.fault(n + 1 + i).Some?;
          assert ps[i + 1] == ps[1..][i] && w.fault(n + (i + 1)).Some?;
        }
      }
    }
  }

  /** Some call of the sequence names the key and errs. */
  predicate Erred(hex: KeyCodec, ps: seq<PeerConfig>, w: World, n: nat, k: Key) {
    exists i :: 0 <= i < |ps| && hex(ps[i].publicKey) == Some(k) && w.fault(n + i).Some?
  }

  lemma AddedPuts(hex: KeyCodec, s: State, d: Diff, w: World, i: nat)
    requires WellFormed(s.table) && i < |d.added| && LastWord(hex, Installs(d), i)
    requires InstallSucceeds(hex, d.added[i], SecretFor(s.cache, d.added, w, |d.removed|, i), w.fault(|d.removed| + i))
    ensures var s2 := InstallAll(hex, s, d.added, false, w, |d.removed|).0;
            OnTable(hex, InstallAll(hex, s2, d.changed, true, w, |d.removed| + |d.added|).0.table, d.added[i],
              SecretFor(s.cache, d.added, w, |d.removed|, i))
  {
    hide *;
    var n, p := |d.removed|, d.added[i];
    var s2 := InstallAll(hex, s, d.added, false, w, n).0;
    assert OnTable(hex, s2.table, p, SecretFor(s.cache, d.added, w, n, i)) by {
      AddedLast(hex, d, i);
      InstallsPut(hex, s, d.added, false, w, n, i);
    }
    assert WellFormed(s2.table) by {
      InstallsGrow(hex, s, d.added, false, w, n);
    }
    AddedLast(hex, d, i);
    InstallsKeep(hex, s2, d.changed, true, w, n + |d.added|, p, SecretFor(s.cache, d.added, w, n, i));
  }

  lemma AddedLast(hex: KeyCodec, d: Diff, i: nat)
    requires i < |d.added| && LastWord(hex, Installs(d), i)
    ensures LastWord(hex, d.added, i)
    ensures forall q :: q in d.changed ==>
              hex(q.publicKey) != hex(d.added[i].publicKey) && q.tunnelIP != d.added[i].tunnelIP
  {
    var ps := Installs(d);
    assert forall j :: i < j < |d.added| ==> d.added[j] == ps[j];
    forall q | q in d.changed
      ensures hex(q.publicKey) != hex(d.added[i].publicKey) && q.tunnelIP != d.added[i].tunnelIP
    {
      var j :| 0 <= j < |d.changed| && d.changed[j] == q;
      assert ps[|d.added| + j] == q;
    }
  }

  lemma LaterWord(hex: KeyCodec, ps: seq<PeerConfig>, qs: seq<PeerConfig>, i: nat)
    requires i < |qs|
    requires LastWord(hex, ps + qs, |ps| + i)
    ensures LastWord(hex, qs, i)
  {
    assert forall j :: i < j < |qs| ==> qs[j] == (ps + qs)[|ps| + j];
  }

  lemma OneInstall(hex: KeyCodec, s: State, d: Diff, w: World, i: nat)
    requires WellFormed(s.table) && i < |Installs(d)| && LastWord(hex, Installs(d), i)
    requires InstallSucceeds(hex, Installs(d)[i], SecretFor(s.cache, Installs(d), w, |d.removed|, i),
               w.fault(|d.removed| + i))
    requires i < |d.added| || StaysOn(hex, s.table, d, Installs(d)[i])
    ensures OnTable(hex, Apply(hex, s, d, w).0.table, Installs(d)[i],
              SecretFor(s.cache, Installs(d), w, |d.removed|, i))
  {
    var n, m, ps := |d.removed|, |d.added|, Installs(d);
    var s1, s2 := Revoked(hex, s, d, w), Extended(hex, s, d, w);
    hide InstallAll, RemoveAll, OnTable, InstallSucceeds, SecretFor, WellFormed, LastWord;
    RemovalsLeave(hex, s, d.removed, w, 0);
    StageSecrets(hex, s, d, w, i);
    if i < m {
      AddedPuts(hex, s1, d, w, i);
    } else {
      InstallsGrow(hex, s1, d.added, false, w, n);
      assert ps[i] == d.changed[i - m] && w.fault(n + m + (i - m)) == w.fault(n + i);
      LaterWord(hex, d.added, d.changed, i - m);
      InstallsPut(hex, s2, d.changed, true, w, n + m, i - m);
    }
  }

  lemma EachInstall(hex: KeyCodec, s: State, d: Diff, w: World)
    requires WellFormed(s.table)
    ensures InstalledWhereCalled(hex, s.cache, s.table, d, w, Apply(hex, s, d, w).0.table)
  {
    var n, ps := |d.removed|, Installs(d);
    hide Apply, OnTable, InstallSucceeds, SecretFor, StaysOn, LastWord;
    forall i | 0 <= i < |ps| && LastWord(hex, ps, i)
               && InstallSucceeds(hex, ps[i], SecretFor(s.cache, ps, w, n, i), w.fault(n + i))
               && (i < |d.added| || StaysOn(hex, s.table, d, ps[i]))
      ensures OnTable(hex, Apply(hex, s, d, w).0.table, ps[i], SecretFor(s.cache, ps, w, n, i))
    {
      OneInstall(hex, s, d, w, i);
    }
  }

  lemma ApplyWellFormed(hex: KeyCodec, s: State, d: Diff, w: World)
    requires WellFormed(s.table)
    ensures WellFormed(Apply(hex, s, d, w).0.table)
  {
    hide InstallAll, RemoveAll, WellFormed;
    RemovalsLeave(hex, s, d.removed, w, 0);
    InstallsGrow(hex, Revoked(hex, s, d, w), d.added, false, w, |d.removed|);
    InstallsGrow(hex, Extended(hex, s, d, w), d.changed, true, w, |d.removed| + |d.added|);
  }

  // Removals and creations.

  /** No call of the sequence names the key. */
  predicate Unnamed(hex: KeyCodec, ps: seq<PeerConfig>, k: Key) {
    forall p :: p in ps ==> hex(p.publicKey) != Some(k)
  }

  /** A removed peer whose own call succeeded is off the device, unless a later call names its key. */
  predicate RemovedWhereCalled(hex: KeyCodec, d: Diff, w: World, after: Table) {
    forall i :: 0 <= i < |d.removed| && RemovalSucceeds(hex, d.removed[i], w.fault(i)) ==>
      var k := hex(d.removed[i].publicKey);
      Unnamed(hex, d.removed[i + 1..], k.value) && Unnamed(hex, Installs(d), k.value) ==> k.value !in after.peers
  }

  /** A key new to the device belongs to an added peer, or to a call that named it and erred. */
  predicate CreatedOnlyByAdding(hex: KeyCodec, t: Table, d: Diff, w: World, after: Table) {
    forall k :: k in after.peers && k !in t.peers ==>
      || (exists p :: p in d.added && hex(p.publicKey) == Some(k))
      || Erred(hex, d.removed, w, 0, k) || Erred(hex, d.changed, w, |d.removed| + |d.added|, k)
  }

  lemma {:induction false} RemovalsTake(hex: KeyCodec, s: State, ps: seq<PeerConfig>, w: World, n: nat, i: nat)
    requires WellFormed(s.table) && i < |ps| && RemovalSucceeds(hex, ps[i], w.fault(n + i))
    requires Unnamed(hex, ps[i + 1..], hex(ps[i].publicKey).value)
    ensures hex(ps[i].publicKey).value !in RemoveAll(hex, s, ps, w, n).0.table.peers
    decreases ps
  {
    hide RemoveOne, WellFormed;
    var s' := RemoveOne(hex, s, ps[0], w.fault(n)).0;
    RemovalLeaves(hex, s, ps[0], w.fault(n));
    if i == 0 {
      RemovalsLeave(hex, s', ps[1..], w, n + 1);
    } else {
      assert w.fault(n + 1 + (i - 1)) == w.fault(n + i);
      assert ps[1..][i..] == ps[i + 1..];
      RemovalsTake(hex, s', ps[1..], w, n + 1, i - 1);
    }
  }

  lemma EachRemoval(hex: KeyCodec, s: State, d: Diff, w: World)
    requires WellFormed(s.table)
    ensures RemovedWhereCalled(hex, d, w, Apply(hex, s, d, w).0.table)
  {
    var n, m := |d.removed|, |d.added|;
    var s1, s2 := Revoked(hex, s, d, w), Extended(hex, s, d, w);
    RemovalsLeave(hex, s, d.removed, w, 0);
    InstallsGrow(hex, s1, d.added, false, w, n);
    InstallsGrow(hex, s2, d.changed, true, w, n + m);
    assert forall p :: p in d.added || p in d.changed ==> p in Installs(d);
    hide InstallAll, RemoveAll, Installs;
    forall i | 0 <= i < n && RemovalSucceeds(hex, d.removed[i], w.fault(i))
               && Unnamed(hex, d.removed[i + 1..], hex(d.removed[i].publicKey).value)
               && Unnamed(hex, Installs(d), hex(d.removed[i].publicKey).value)
      ensures hex(d.removed[i].publicKey).value !in Apply(hex, s, d, w).0.table.peers
    {
      assert w.fault(0 + i) == w.fault(i);
      RemovalsTake(hex, s, d.removed, w, 0, i);
    }
  }

  /** An update that does not err creates nobody. */
  lemma UpdateCreatesNobody(hex: KeyCodec, s: State, p: PeerConfig, answer: Option<string>)
    requires WellFormed(s.table)
    ensures InstallOne(hex, s, p, true, answer, None).0.table.peers.Keys <= s.table.peers.Keys
  {
    var cache := Resolved(s, answer, p.psk).cache;
    if p.psk in cache {
      var dp := DevicePeer(p.publicKey, cache[p.psk], p.tunnelIP, None);
      if Render(hex, dp, true).Lines? {
        BlockMeaning(hex, s.table, dp, true);
      }
    }
    hide FeedAll;
  }

  lemma {:induction false} UpdatesCreate(hex: KeyCodec, s: State, ps: seq<PeerConfig>, w: World, n: nat)
    requires WellFormed(s.table)
    ensures forall k :: k in InstallAll(hex, s, ps, true, w, n).0.table.peers && k !in s.table.peers ==>
              Erred(hex, ps, w, n, k)
    decreases ps
  {
    hide InstallOne, WellFormed;
    if ps != [] {
      var s' := InstallOne(hex, s, ps[0], true, w.store(n, ps[0].psk), w.fault(n)).0;
      InstallLeaves(hex, s, ps[0], true, w.store(n, ps[0].psk), w.fault(n));
      UpdatesCreate(hex, s', ps[1..], w, n + 1);
      var t := InstallAll(hex, s, ps, true, w, n).0.table;
      forall k | k in t.peers && k !in s.table.peers ensures Erred(hex, ps, w, n, k) {
        if k in s'.table.peers {
          if w.fault(n).None? {
            UpdateCreatesNobody(hex, s, ps[0], w.store(n, ps[0].psk));
          }
          assert hex(ps[0].publicKey) == Some(k) && w.fault(n + 0).Some?;
        } else {
          var i :| 0 <= i < |ps[1..]| && hex(ps[1..][i].publicKey) == Some(k) && w.fault(n + 1 + i).Some?;
          assert ps[i + 1] == ps[1..][i] && w.fault(n + (i + 1)).Some?;
        }
      }
    }
  }

  lemma OnlyAddedCreated(hex: KeyCodec, s: State, d: Diff, w: World)
    requires WellFormed(s.table)
    ensures CreatedOnlyByAdding(hex, s.table, d, w, Apply(hex, s, d, w).0.table)
  {
    var n, m := |d.removed|, |d.added|;
    var s1, s2 := Revoked(hex, s, d, w), Extended(hex, s, d, w);
    hide Erred, InstallAll, RemoveAll, WellFormed;
    RemovalsLeave(hex, s, d.removed, w, 0);
    InstallsGrow(hex, s1, d.added, false, w, n);
    UpdatesCreate(hex, s2, d.changed, w, n + m);
  }

  // --------------------------------------------------------------------
  // The diff of two lists
  // --------------------------------------------------------------------

  /** In the diff of two lists no call speaks after a peer's own. */
  lemma DiffsDoNotOverlap(hex: KeyCodec, prev: seq<PeerConfig>, next: seq<PeerConfig>)
    requires Distinct(next) && InjectiveOn(hex, prev + next)
    ensures var d := DiffOf(prev, next);
            && (forall i :: 0 <= i < |Installs(d)| && hex(Installs(d)[i].publicKey).Some? ==>
                  LastWord(hex, Installs(d), i))
            && (forall p, q :: p in Installs(d) && q in d.removed && hex(q.publicKey).Some? ==>
                  hex(p.publicKey) != hex(q.publicKey))
  {
    DiffMembers(prev, next);
    var d := DiffOf(prev, next);
    var ps := Installs(d);
    assert forall p :: p in ps ==> p in next && p in prev + next;
    assert forall q :: q in d.removed ==> q in prev + next;
    NoRepeats(prev, next);
    hide LastWith, DiffOf;
    forall p, q | p in ps && q in d.removed && hex(q.publicKey).Some? ensures hex(p.publicKey) != hex(q.publicKey) {
      assert LastWith(next, q.publicKey).None?;
    }
    forall i | 0 <= i < |ps| && hex(ps[i].publicKey).Some? ensures LastWord(hex, ps, i) {
      forall j | i < j < |ps|
        ensures hex(ps[j].publicKey) != hex(ps[i].publicKey) && ps[j].tunnelIP != ps[i].tunnelIP
      {
        assert ps[i] in ps && ps[j] in ps && ps[i] != ps[j];
        DistinctPair(next, ps[i], ps[j]);
      }
    }
  }

  predicate AllDiffer(ps: seq<PeerConfig>) {
    forall i, j :: 0 <= i < j < |ps| ==> ps[i] != ps[j]
  }

  lemma DifferCons(p: PeerConfig, ps: seq<PeerConfig>)
    requires AllDiffer(ps) && p !in ps
    ensures AllDiffer([p] + ps)
  {
  }

  lemma {:induction false} FilterDiffer(ps: seq<PeerConfig>, keep: PeerConfig -> bool)
    requires AllDiffer(ps)
    ensures AllDiffer(Filter(ps, keep))
  {
    if ps != [] {
      var rest := Filter(ps[1..], keep);
      FilterMembers(ps[1..], keep);
      assert ps[0] !in ps[1..] && AllDiffer(ps[1..]);
      hide AllDiffer;
      FilterDiffer(ps[1..], keep);
      if keep(ps[0]) {
        DifferCons(ps[0], rest);
      } else {
        assert Filter(ps, keep) == rest;
      }
    }
  }

  lemma NoRepeats(prev: seq<PeerConfig>, next: seq<PeerConfig>)
    requires Distinct(next)
    ensures AllDiffer(Installs(DiffOf(prev, next)))
  {
    DiffMembers(prev, next);
    var d := DiffOf(prev, next);
    assert AllDiffer(next);
    hide LastWith, Distinct;
    FilterDiffer(next, Missing(prev));
    FilterDiffer(next, Differing(prev));
    forall p | p in d.added ensures p !in d.changed {}
    hide DiffOf;
    assert AllDiffer(d.added) && AllDiffer(d.changed);
    assert forall i :: 0 <= i < |d.added| ==> d.added[i] in d.added;
    assert forall i :: 0 <= i < |d.changed| ==> d.changed[i] in d.changed;
  }

  // --------------------------------------------------------------------
  // The object
  // --------------------------------------------------------------------

  class Applier {
    const dev: TunnelDevice
    var cache: map<string, string>
    ghost var failed: set<string>

    constructor (dev: TunnelDevice)
      ensures this.dev == dev && cache == map[] && failed == {}
    {
      this.dev := dev;
      cache, failed := map[], {};
    }

    ghost function Now(): State
      reads this, dev
    {
      State(dev.table, cache, failed)
    }

    /** A cached value wins over the store, whatever the store would now say. */
    method ResolveSecret(ref: string, answer: Option<string>) returns (secret: Option<string>)
      modifies this
      ensures Now() == Resolved(old(Now()), answer, ref)
      ensures secret == if ref in cache then Some(cache[ref]) else None
    {
      if ref in cache {
        return Some(cache[ref]);
      }
      if answer.None? {
        return None;
      }
      cache := cache[ref := answer.value];
      return answer;
    }

    method ApplyPeer(p: PeerConfig, updateOnly: bool, answer: Option<string>, fault: Option<nat>) returns (ok: bool)
      modifies this, dev
      ensures (Now(), ok) == InstallOne(dev.hex, old(Now()), p, updateOnly, answer, fault)
    {
      var psk := ResolveSecret(p.psk, answer);
      if psk.None? {
        return false;
      }
      var dp := DevicePeer(p.publicKey, psk.value, p.tunnelIP, None);
      if updateOnly {
        ok := dev.UpdatePeer(dp, fault);
      } else {
        ok := dev.AddPeer(dp, fault);
      }
    }

    method RevokeAll(ps: seq<PeerConfig>, w: World, n: nat) returns (ok: bool)
      modifies this, dev
      ensures (Now(), ok) == RemoveAll(dev.hex, old(Now()), ps, w, n)
    {
      ok := true;
      ghost var goal := RemoveAll(dev.hex, Now(), ps, w, n);
      for i := 0 to |ps|
        invariant goal == (RemoveAll(dev.hex, Now(), ps[i..], w, n + i).0, goal.1)
        invariant goal.1 == (ok && RemoveAll(dev.hex, Now(), ps[i..], w, n + i).1)
      {
        assert ps[i..][1..] == ps[i + 1..];
        var removed := dev.Remove(ps[i].publicKey, w.fault(n + i));
        failed := if removed then failed - {ps[i].publicKey} else failed + {ps[i].publicKey};
        ok := ok && removed;
      }
    }

    method InstallPeers(ps: seq<PeerConfig>, updateOnly: bool, w: World, n: nat) returns (ok: bool)
      modifies this, dev
      ensures (Now(), ok) == InstallAll(dev.hex, old(Now()), ps, updateOnly, w, n)
    {
      ok := true;
      ghost var goal := InstallAll(dev.hex, Now(), ps, updateOnly, w, n);
      for i := 0 to |ps|
        invariant goal == (InstallAll(dev.hex, Now(), ps[i..], updateOnly, w, n + i).0, goal.1)
        invariant goal.1 == (ok && InstallAll(dev.hex, Now(), ps[i..], updateOnly, w, n + i).1)
      {
        assert ps[i..][1..] == ps[i + 1..];
        var installed := ApplyPeer(ps[i], updateOnly, w.store(n + i, ps[i].psk), w.fault(n + i));
        ok := ok && installed;
      }
    }

    method ApplyDiff(d: Diff, w: World) returns (ok: bool)
      modifies this, dev
      ensures (Now(), ok) == Apply(dev.hex, old(Now()), d, w)
      ensures ok <==> AllSucceed(dev.hex, old(cache), d, w)
      ensures WellFormed(old(dev.table)) ==>
                && WellFormed(dev.table) && InstalledWhereCalled(dev.hex, old(cache), old(dev.table), d, w, dev.table)
                && RemovedWhereCalled(dev.hex, d, w, dev.table)
                && CreatedOnlyByAdding(dev.hex, old(dev.table), d, w, dev.table)
    {
      hide RemoveAll, InstallAll, AllSucceed, InstalledWhereCalled, RemovedWhereCalled, CreatedOnlyByAdding, WellFormed;
      ReportExact(dev.hex, Now(), d, w);
      if WellFormed(dev.table) {
        ApplyWellFormed(dev.hex, Now(), d, w);
        EachInstall(dev.hex, Now(), d, w);
        EachRemoval(dev.hex, Now(), d, w);
        OnlyAddedCreated(dev.hex, Now(), d, w);
      }
      var removed := RevokeAll(d.removed, w, 0);
      var added := InstallPeers(d.added, false, w, |d.removed|);
      var changed := InstallPeers(d.changed, true, w, |d.removed| + |d.added|);
      return removed && added && changed;
    }

    method PruneSecretCache(inUse: set<string>)
      modifies this
      ensures Now() == Prune(old(Now()), inUse)
    {
      var todo := cache.Keys - inUse;
      ghost var was := cache;
      while todo != {}
        invariant todo <= cache.Keys && todo == cache.Keys - inUse
        invariant cache.Keys <= was.Keys && inUse * was.Keys <= cache.Keys
        invariant forall ref :: ref in cache ==> cache[ref] == was[ref]
        invariant failed == old(failed)
        decreases |todo|
      {
        var ref :| ref in todo;
        cache := cache - {ref};
        todo := todo - {ref};
      }
      forall ref ensures ref in cache <==> ref in was && ref in inUse {
        assert ref in cache.Keys - inUse <==> ref in cache && ref !in inUse;
        assert ref in inUse * was.Keys <==> ref in inUse && ref in was;
      }
    }
  }
}
