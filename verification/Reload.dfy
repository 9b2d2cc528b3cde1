/**
 Hot reload: the diff between two peer lists, and its application to the
 device through the secret cache. Secret stores and device failures are
 inputs, one answer per call, so every theorem holds for all of them.
 */
module Reload {
  import opened Prelude
  import opened Addresses
  import opened Peers
  import opened Device

  datatype Diff = Diff(added: seq<PeerConfig>, removed: seq<PeerConfig>, changed: seq<PeerConfig>)

  predicate Equal(p: PeerConfig, o: PeerConfig)
    ensures Equal(p, o) <==> p == o
  {
    && p.name == o.name && p.publicKey == o.publicKey && p.psk == o.psk
    && p.tunnelIP == o.tunnelIP && p.limits == o.limits && p.allow == o.allow
  }

  /** The entry a map filled in list order ends up holding for `key`. */
  function LastWith(ps: seq<PeerConfig>, key: string): (r: Option<PeerConfig>)
    ensures r.Some? ==> r.value in ps && r.value.publicKey == key
    ensures r.None? <==> forall p :: p in ps ==> p.publicKey != key
  {
    if ps == [] then None
    else
      var p := ps[|ps| - 1];
      assert ps == ps[..|ps| - 1] + [p];
      if p.publicKey == key then Some(p) else LastWith(ps[..|ps| - 1], key)
  }

  predicate IsAdded(prev: seq<PeerConfig>, p: PeerConfig) {
    LastWith(prev, p.publicKey).None?
  }

  predicate IsChanged(prev: seq<PeerConfig>, p: PeerConfig) {
    var before := LastWith(prev, p.publicKey);
    before.Some? && !Equal(before.value, p)
  }

  function Missing(ps: seq<PeerConfig>): PeerConfig -> bool {
    p => IsAdded(ps, p)
  }

  function Differing(prev: seq<PeerConfig>): PeerConfig -> bool {
    p => IsChanged(prev, p)
  }

  /** Keyed by public key, the identity the device uses. */
  function DiffOf(prev: seq<PeerConfig>, next: seq<PeerConfig>): Diff {
    Diff(Filter(next, Missing(prev)), Filter(prev, Missing(next)), Filter(next, Differing(prev)))
  }

  method IndexByKey(ps: seq<PeerConfig>) returns (m: map<string, PeerConfig>)
    ensures forall k :: LastWith(ps, k) == if k in m then Some(m[k]) else None
  {
    m := map[];
    for i := 0 to |ps|
      invariant forall k :: LastWith(ps[..i], k) == if k in m then Some(m[k]) else None
    {
      assert ps[..i + 1][..i] == ps[..i];
      m := m[ps[i].publicKey := ps[i]];
    }
    assert ps[..|ps|] == ps;
  }

  method DiffPeers(prev: seq<PeerConfig>, next: seq<PeerConfig>) returns (d: Diff)
    ensures d == DiffOf(prev, next)
  {
    var prevByKey := IndexByKey(prev);
    var nextByKey := IndexByKey(next);
    var added: seq<PeerConfig>, removed: seq<PeerConfig>, changed: seq<PeerConfig> := [], [], [];
    for i := 0 to |next|
      invariant added == Filter(next[..i], Missing(prev))
      invariant changed == Filter(next[..i], Differing(prev))
    {
      var p := next[i];
      FilterStep(next, i, Missing(prev));
      FilterStep(next, i, Differing(prev));
      if p.publicKey !in prevByKey {
        added := added + [p];
      } else if !Equal(prevByKey[p.publicKey], p) {
        changed := changed + [p];
      }
    }
    assert next[..|next|] == next;
    for i := 0 to |prev|
      invariant removed == Filter(prev[..i], Missing(next))
    {
      FilterStep(prev, i, Missing(next));
      if prev[i].publicKey !in nextByKey {
        removed := removed + [prev[i]];
      }
    }
    assert prev[..|prev|] == prev;
    return Diff(added, removed, changed);
  }

  lemma DiffMembers(prev: seq<PeerConfig>, next: seq<PeerConfig>)
    ensures var d := DiffOf(prev, next);
            && (forall p :: p in d.added <==> p in next && IsAdded(prev, p))
            && (forall p :: p in d.removed <==> p in prev && IsAdded(next, p))
            && (forall p :: p in d.changed <==> p in next && IsChanged(prev, p))
  {
    FilterMembers(next, Missing(prev));
    FilterMembers(prev, Missing(next));
    FilterMembers(next, Differing(prev));
  }

  // --------------------------------------------------------------------
  // Folding reported diffs
  // --------------------------------------------------------------------

  type Index = map<string, PeerConfig>

  function KeysOf(ps: seq<PeerConfig>): set<string> {
    set p | p in ps :: p.publicKey
  }

  function ByKey(ps: seq<PeerConfig>): Index {
    map k | k in KeysOf(ps) :: LastWith(ps, k).value
  }

  /** What a reader of the reported diffs alone can maintain. */
  function Patch(m: Index, d: Diff): Index {
    (m - KeysOf(d.removed)) + ByKey(d.added) + ByKey(d.changed)
  }

  lemma DistinctByKey(ps: seq<PeerConfig>, p: PeerConfig)
    requires Distinct(ps) && p in ps
    ensures LastWith(ps, p.publicKey) == Some(p)
  {
    var q := LastWith(ps, p.publicKey).value;
    var i :| 0 <= i < |ps| && ps[i] == p;
    var j :| 0 <= j < |ps| && ps[j] == q;
  }

  function Look(m: Index, k: string): Option<PeerConfig> {
    if k in m then Some(m[k]) else None
  }

  lemma LookByKey(ps: seq<PeerConfig>, k: string)
    ensures Look(ByKey(ps), k) == LastWith(ps, k)
  {
    hide LastWith;
  }

  lemma LookPatch(m: Index, d: Diff, k: string)
    ensures Look(Patch(m, d), k) ==
            if LastWith(d.changed, k).Some? then LastWith(d.changed, k)
            else if LastWith(d.added, k).Some? then LastWith(d.added, k)
            else if LastWith(d.removed, k).Some? then None
            else Look(m, k)
  {
    hide LastWith, ByKey;
    LookByKey(d.changed, k);
    LookByKey(d.added, k);
    LookByKey(d.removed, k);
  }

  lemma PatchAt(prev: seq<PeerConfig>, next: seq<PeerConfig>, k: string)
    requires Distinct(next)
    ensures Look(Patch(ByKey(prev), DiffOf(prev, next)), k) == LastWith(next, k)
  {
    var d := DiffOf(prev, next);
    DiffMembers(prev, next);
    Sublist(next, d.added, k);
    Sublist(next, d.changed, k);
    LookPatch(ByKey(prev), d, k);
    LookByKey(prev, k);
    hide LastWith, DiffOf, Distinct, Patch, ByKey, Look;
    var now, was := LastWith(next, k), LastWith(prev, k);
    if now.Some? {
      assert was.None? ==> now.value in d.added;
      assert was.Some? && was != now ==> now.value in d.changed;
      assert was == now ==> LastWith(d.removed, k).None?;
    } else if was.Some? {
      assert was.value in d.removed;
    }
  }

  /** A sublist of a list with distinct keys holds the same entry for a key, or none. */
  lemma Sublist(ps: seq<PeerConfig>, sub: seq<PeerConfig>, k: string)
    requires Distinct(ps) && forall p :: p in sub ==> p in ps
    ensures LastWith(sub, k).Some? ==> LastWith(sub, k) == LastWith(ps, k)
  {
    hide LastWith;
    if LastWith(sub, k).Some? {
      DistinctByKey(ps, LastWith(sub, k).value);
    }
  }

  lemma SameLook(m: Index, n: Index)
    requires forall k :: Look(m, k) == Look(n, k)
    ensures m == n
  {
    assert forall k :: k in m <==> Look(m, k).Some?;
    assert forall k :: k in n <==> Look(n, k).Some?;
    assert forall k :: k in m ==> Some(m[k]) == Look(m, k);
  }

  lemma PatchYieldsNext(prev: seq<PeerConfig>, next: seq<PeerConfig>)
    requires Distinct(next)
    ensures Patch(ByKey(prev), DiffOf(prev, next)) == ByKey(next)
  {
    var m := Patch(ByKey(prev), DiffOf(prev, next));
    forall k ensures Look(m, k) == Look(ByKey(next), k) {
      PatchAt(prev, next, k);
      LookByKey(next, k);
    }
    SameLook(m, ByKey(next));
  }

  lemma DistinctPair(ps: seq<PeerConfig>, p: PeerConfig, q: PeerConfig)
    requires Distinct(ps) && p in ps && q in ps && p != q
    ensures p.publicKey != q.publicKey && p.tunnelIP != q.tunnelIP
  {
    var i :| 0 <= i < |ps| && ps[i] == p;
    var j :| 0 <= j < |ps| && ps[j] == q;
  }

  // --------------------------------------------------------------------
  // Applying a diff
  // --------------------------------------------------------------------

  /** Decoding is injective on the keys in use; duplicates are found as text. */
  ghost predicate InjectiveOn(hex: KeyCodec, ps: seq<PeerConfig>) {
    forall p, q :: p in ps && q in ps && hex(p.publicKey).Some? && hex(p.publicKey) == hex(q.publicKey) ==>
      p.publicKey == q.publicKey
  }

  /** `failed` records the keys whose last RemovePeer call reported an error. */
  datatype State = State(table: Table, cache: map<string, string>, failed: set<string>)

  /** One reload's surroundings: the n-th secret lookup and the n-th device call. */
  datatype World = World(store: (nat, string) -> Option<string>, fault: nat -> Option<nat>)

  function RemoveOne(hex: KeyCodec, s: State, p: PeerConfig, fault: Option<nat>): (State, bool) {
    var (t, ok) := RemovePeer(hex, s.table, p.publicKey, fault);
    (State(t, s.cache, if ok then s.failed - {p.publicKey} else s.failed + {p.publicKey}), ok)
  }

  function Resolved(s: State, answer: Option<string>, ref: string): State {
    if ref in s.cache || answer.None? then s else s.(cache := s.cache[ref := answer.value])
  }

  function InstallOne(hex: KeyCodec, s: State, p: PeerConfig, updateOnly: bool, answer: Option<string>,
                      fault: Option<nat>): (State, bool) {
    var s' := Resolved(s, answer, p.psk);
    if p.psk !in s'.cache then (s, false)
    else
      var (t, ok) := ApplyPeer(hex, s'.table, DevicePeer(p.publicKey, s'.cache[p.psk], p.tunnelIP, None), updateOnly,
        fault);
      (s'.(table := t), ok)
  }

  function RemoveAll(hex: KeyCodec, s: State, ps: seq<PeerConfig>, w: World, n: nat): (State, bool)
    decreases ps
  {
    if ps == [] then (s, true)
    else
      var (s', ok) := RemoveOne(hex, s, ps[0], w.fault(n));
      var (s'', rest) := RemoveAll(hex, s', ps[1..], w, n + 1);
      (s'', ok && rest)
  }

  function InstallAll(hex: KeyCodec, s: State, ps: seq<PeerConfig>, updateOnly: bool, w: World, n: nat): (State, bool)
    decreases ps
  {
    if ps == [] then (s, true)
    else
      var (s', ok) := InstallOne(hex, s, ps[0], updateOnly, w.store(n, ps[0].psk), w.fault(n));
      var (s'', rest) := InstallAll(hex, s', ps[1..], updateOnly, w, n + 1);
      (s'', ok && rest)
  }

  /** Removals first, always; every error is collected and none stops the rest. */
  function Apply(hex: KeyCodec, s: State, d: Diff, w: World): (State, bool) {
    var (s1, ok1) := RemoveAll(hex, s, d.removed, w, 0);
    var (s2, ok2) := InstallAll(hex, s1, d.added, false, w, |d.removed|);
    var (s3, ok3) := InstallAll(hex, s2, d.changed, true, w, |d.removed| + |d.added|);
    (s3, ok1 && ok2 && ok3)
  }

  /** Key material for references no longer in the list is dropped. */
  function Prune(s: State, inUse: set<string>): State {
    s.(cache := map ref | ref in s.cache && ref in inUse :: s.cache[ref])
  }
}
