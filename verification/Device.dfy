/**
 The WireGuard device as two tables, configured line by line.

 The line semantics follow the "Configuration Protocol" section of WireGuard's
 Cross-platform Interface document: `public_key` selects a peer and creates it
 if missing, `update_only` takes a creation back, `replace_allowed_ips` clears
 the peer's addresses, and `allowed_ip` takes an address from its owner.
 */
module Device {
  import opened Prelude
  import opened Addresses

  /** A key in the encoding the device speaks. */
  type Key = string

  datatype Entry = Entry(psk: Option<Key>, endpoint: Option<AddrPort>, keepalive: nat)

  datatype Table = Table(peers: map<Key, Entry>, owner: map<Addr, Key>)

  datatype Line =
    | PublicKey(key: Key) | UpdateOnly | Remove | PresharedKey(psk: Key) | Endpoint(ep: AddrPort)
    | ReplaceAllowedIPs | AllowedIP(ip: Addr) | Keepalive(seconds: nat)

  /** Which peer later lines configure; `Dummy` swallows them. */
  datatype Cursor = Dummy | At(key: Key, created: bool)

  const EMPTY := Table(map[], map[])
  const KEEPALIVE_INTERVAL := 25
  const NEW_ENTRY := Entry(None, None, 0)

  function Disown(owner: map<Addr, Key>, k: Key): map<Addr, Key> {
    map a | a in owner && owner[a] != k :: owner[a]
  }

  function Without(t: Table, k: Key): Table {
    Table(t.peers - {k}, Disown(t.owner, k))
  }

  /** Every address on the table belongs to a peer on the table. */
  predicate WellFormed(t: Table) {
    forall a :: a in t.owner ==> t.owner[a] in t.peers
  }

  function Feed(t: Table, c: Cursor, l: Line): (Table, Cursor)
    requires c.At? ==> c.key in t.peers
    ensures var (t', c') := Feed(t, c, l); c'.At? ==> c'.key in t'.peers
  {
    if l.PublicKey? then
      if l.key in t.peers then (t, At(l.key, false))
      else (t.(peers := t.peers[l.key := NEW_ENTRY]), At(l.key, true))
    else if c.Dummy? then (t, c)
    else
      var k, e := c.key, t.peers[c.key];
      match l
      case UpdateOnly => if c.created then (Without(t, k), Dummy) else (t, c)
      case Remove => (Without(t, k), Dummy)
      case PresharedKey(psk) => (t.(peers := t.peers[k := e.(psk := Some(psk))]), c)
      case Endpoint(ep) => (t.(peers := t.peers[k := e.(endpoint := Some(ep))]), c)
      case ReplaceAllowedIPs => (t.(owner := Disown(t.owner, k)), c)
      case AllowedIP(ip) => (t.(owner := t.owner[ip := k]), c)
      case Keepalive(n) => (t.(peers := t.peers[k := e.(keepalive := n)]), c)
      case PublicKey(_) => (t, c)
  }

  function FeedAll(t: Table, c: Cursor, lines: seq<Line>): Table
    requires c.At? ==> c.key in t.peers
    decreases lines
  {
    if lines == [] then t
    else
      var (t', c') := Feed(t, c, lines[0]);
      FeedAll(t', c', lines[1..])
  }

  /** One configuration block, which may fail after any number of its lines. */
  function IpcSet(t: Table, lines: seq<Line>, fault: Option<nat>): (Table, bool) {
    match fault
    case None => (FeedAll(t, Dummy, lines), true)
    case Some(n) => (FeedAll(t, Dummy, if n < |lines| then lines[..n] else lines), false)
  }

  // --------------------------------------------------------------------
  // Rendering
  // --------------------------------------------------------------------

  datatype DevicePeer = DevicePeer(publicKey: string, psk: string, allowedIP: Addr, endpoint: Option<AddrPort>)

  datatype RenderError = BadPublicKey | BadPresharedKey | NoAllowedIP | OutsideSubnet | BadEndpoint

  datatype Rendered = Lines(lines: seq<Line>) | Rejected(error: RenderError)

  /** Base64 to the device's encoding; none for anything but a 32-byte key. */
  type KeyCodec = string -> Option<Key>

  predicate Dialable(ep: AddrPort) {
    !ep.addr.Invalid? && ep.port != 0
  }

  function Render(hex: KeyCodec, p: DevicePeer, updateOnly: bool): Rendered {
    if hex(p.publicKey).None? then Rejected(BadPublicKey)
    else if hex(p.psk).None? then Rejected(BadPresharedKey)
    else if p.allowedIP.Invalid? then Rejected(NoAllowedIP)
    else if !InSubnet(p.allowedIP) then Rejected(OutsideSubnet)
    else if p.endpoint.Some? && !Dialable(p.endpoint.value) then Rejected(BadEndpoint)
    else Lines([PublicKey(hex(p.publicKey).value)]
               + (if updateOnly then [UpdateOnly] else [])
               + [PresharedKey(hex(p.psk).value)]
               + (if p.endpoint.Some? then [Endpoint(p.endpoint.value)] else [])
               + [ReplaceAllowedIPs, AllowedIP(p.allowedIP)]
               + (if p.endpoint.Some? then [Keepalive(KEEPALIVE_INTERVAL)] else []))
  }

  /** `k` holds exactly `ip`, taken from whoever had it, and keeps the rest of its entry. */
  function Installed(t: Table, k: Key, p: DevicePeer, psk: Key): Table {
    var e := if k in t.peers then t.peers[k] else NEW_ENTRY;
    var e' := if p.endpoint.Some? then e.(psk := Some(psk), endpoint := p.endpoint, keepalive := KEEPALIVE_INTERVAL)
              else e.(psk := Some(psk));
    Table(t.peers[k := e'], Disown(t.owner, k)[p.allowedIP := k])
  }

  /**
   The peer has its secret and exactly its address, and its endpoint with the keepalive
   if it names one; every other peer keeps its entry and its other addresses.
   */
  ghost predicate Configured(hex: KeyCodec, t: Table, p: DevicePeer, t': Table) {
    && hex(p.publicKey).Some?
    && var k := hex(p.publicKey).value;
       && t'.peers.Keys == t.peers.Keys + {k}
       && t'.peers[k].psk == hex(p.psk) && hex(p.psk).Some?
       && (p.endpoint.Some? ==> t'.peers[k].endpoint == p.endpoint && t'.peers[k].keepalive == 25)
       && (p.endpoint.None? && k in t.peers ==>
             t'.peers[k].endpoint == t.peers[k].endpoint && t'.peers[k].keepalive == t.peers[k].keepalive)
       && (p.endpoint.None? && k !in t.peers ==> t'.peers[k].endpoint == None && t'.peers[k].keepalive == 0)
       && (forall j :: j in t.peers && j != k ==> t'.peers[j] == t.peers[j])
       && (forall a :: a in t'.owner && t'.owner[a] == k <==> a == p.allowedIP)
       && (forall a :: a != p.allowedIP ==>
             (a in t'.owner <==> a in t.owner && t.owner[a] != k) && (a in t'.owner ==> t'.owner[a] == t.owner[a]))
  }

  lemma InstalledConfigures(hex: KeyCodec, t: Table, p: DevicePeer)
    requires hex(p.publicKey).Some? && hex(p.psk).Some?
    ensures Configured(hex, t, p, Installed(t, hex(p.publicKey).value, p, hex(p.psk).value))
  {
    var k := hex(p.publicKey).value;
    var t' := Installed(t, k, p, hex(p.psk).value);
    assert p.allowedIP in t'.owner && t'.owner[p.allowedIP] == k;
  }

  /** A rendered block does what the peer says: install it, or refuse to create it. */
  lemma BlockMeaning(hex: KeyCodec, t: Table, p: DevicePeer, updateOnly: bool)
    requires WellFormed(t) && Render(hex, p, updateOnly).Lines?
    ensures var k := hex(p.publicKey).value;
            FeedAll(t, Dummy, Render(hex, p, updateOnly).lines) ==
            if updateOnly && k !in t.peers then t else Installed(t, k, p, hex(p.psk).value)
  {
    var k, psk := hex(p.publicKey).value, hex(p.psk).value;
    var tail := [PresharedKey(psk)]
               + (if p.endpoint.Some? then [Endpoint(p.endpoint.value)] else [])
               + [ReplaceAllowedIPs, AllowedIP(p.allowedIP)]
               + (if p.endpoint.Some? then [Keepalive(KEEPALIVE_INTERVAL)] else []);
    var head := if updateOnly then [PublicKey(k), UpdateOnly] else [PublicKey(k)];
    assert Render(hex, p, updateOnly).lines == head + tail;
    assert forall l :: l in tail ==> !l.PublicKey?;
    HeadMeaning(t, k, updateOnly, tail);
    if !updateOnly || k in t.peers {
      var (t1, c1) := Feed(t, Dummy, PublicKey(k));
      TailMeaning(t1, c1, p, psk, tail);
      InstalledFresh(t, k, p, psk);
    }
  }

  /** The opening lines create the peer, or with update_only swallow the block when it is absent. */
  lemma HeadMeaning(t: Table, k: Key, updateOnly: bool, tail: seq<Line>)
    requires WellFormed(t) && forall l :: l in tail ==> !l.PublicKey?
    ensures var head := if updateOnly then [PublicKey(k), UpdateOnly] else [PublicKey(k)];
            FeedAll(t, Dummy, head + tail) ==
            if updateOnly && k !in t.peers then t
            else (var (t1, c1) := Feed(t, Dummy, PublicKey(k)); FeedAll(t1, c1, tail))
  {
    var (t1, c1) := Feed(t, Dummy, PublicKey(k));
    hide FeedAll;
    if updateOnly {
      assert [PublicKey(k), UpdateOnly] + tail == [PublicKey(k)] + ([UpdateOnly] + tail);
      FeedCons(t, Dummy, PublicKey(k), [UpdateOnly] + tail);
      FeedCons(t1, c1, UpdateOnly, tail);
      if k !in t.peers {
        assert Without(t1, k) == t;
        SwallowAll(t, tail);
      }
    } else {
      FeedCons(t, Dummy, PublicKey(k), tail);
    }
  }

  /** Naming a new key creates an empty entry; installing over it is installing afresh. */
  lemma InstalledFresh(t: Table, k: Key, p: DevicePeer, psk: Key)
    ensures Installed(Feed(t, Dummy, PublicKey(k)).0, k, p, psk) == Installed(t, k, p, psk)
  {
    var t1 := Feed(t, Dummy, PublicKey(k)).0;
    assert Installed(t1, k, p, psk).peers == Installed(t, k, p, psk).peers;
  }

  lemma {:induction false} SwallowAll(t: Table, lines: seq<Line>)
    requires forall l :: l in lines ==> !l.PublicKey?
    ensures FeedAll(t, Dummy, lines) == t
    decreases lines
  {
    if lines != [] {
      SwallowAll(t, lines[1..]);
    }
  }

  lemma FeedCons(t: Table, c: Cursor, l: Line, rest: seq<Line>)
    requires c.At? ==> c.key in t.peers
    ensures FeedAll(t, c, [l] + rest) == var (t', c') := Feed(t, c, l); FeedAll(t', c', rest)
  {
    assert ([l] + rest)[0] == l && ([l] + rest)[1..] == rest;
  }

  lemma TailMeaning(t: Table, c: Cursor, p: DevicePeer, psk: Key, lines: seq<Line>)
    requires c.At? && c.key in t.peers
    requires lines == [PresharedKey(psk)]
               + (if p.endpoint.Some? then [Endpoint(p.endpoint.value)] else [])
               + [ReplaceAllowedIPs, AllowedIP(p.allowedIP)]
               + (if p.endpoint.Some? then [Keepalive(KEEPALIVE_INTERVAL)] else [])
    ensures FeedAll(t, c, lines) == Installed(t, c.key, p, psk)
  {
    var address := AllowedIP(p.allowedIP);
    var t1 := Feed(t, c, PresharedKey(psk)).0;
    if p.endpoint.Some? {
      var ep, last := Endpoint(p.endpoint.value), Keepalive(KEEPALIVE_INTERVAL);
      var t2 := Feed(t1, c, ep).0;
      var t3 := Feed(t2, c, ReplaceAllowedIPs).0;
      var t4 := Feed(t3, c, address).0;
      var t5 := Feed(t4, c, last).0;
      assert t5.peers == Installed(t, c.key, p, psk).peers && t5.owner == Installed(t, c.key, p, psk).owner;
      assert FeedAll(t5, c, []) == t5;
      hide FeedAll, Installed, Disown;
      assert lines == [PresharedKey(psk)] + ([ep] + ([ReplaceAllowedIPs] + ([address] + ([last] + []))));
      FeedCons(t, c, PresharedKey(psk), [ep] + ([ReplaceAllowedIPs] + ([address] + ([last] + []))));
      FeedCons(t1, c, ep, [ReplaceAllowedIPs] + ([address] + ([last] + [])));
      FeedCons(t2, c, ReplaceAllowedIPs, [address] + ([last] + []));
      FeedCons(t3, c, address, [last] + []);
      FeedCons(t4, c, last, []);
    } else {
      var t2 := Feed(t1, c, ReplaceAllowedIPs).0;
      var t3 := Feed(t2, c, address).0;
      assert t3.peers == Installed(t, c.key, p, psk).peers && t3.owner == Installed(t, c.key, p, psk).owner;
      assert FeedAll(t3, c, []) == t3;
      hide FeedAll, Installed, Disown;
      assert lines == [PresharedKey(psk)] + ([ReplaceAllowedIPs] + ([address] + []));
      FeedCons(t, c, PresharedKey(psk), [ReplaceAllowedIPs] + ([address] + []));
      FeedCons(t1, c, ReplaceAllowedIPs, [address] + []);
      FeedCons(t2, c, address, []);
    }
  }

  function ApplyPeer(hex: KeyCodec, t: Table, p: DevicePeer, updateOnly: bool, fault: Option<nat>): (Table, bool) {
    match Render(hex, p, updateOnly)
    case Rejected(_) => (t, false)
    case Lines(lines) => IpcSet(t, lines, fault)
  }

  function RemovePeer(hex: KeyCodec, t: Table, publicKey: string, fault: Option<nat>): (Table, bool) {
    match hex(publicKey)
    case None => (t, false)
    case Some(k) => IpcSet(t, [PublicKey(k), Remove], fault)
  }

  function SetPeerEndpoint(hex: KeyCodec, t: Table, publicKey: string, ep: AddrPort,
                           fault: Option<nat>): (Table, bool) {
    match hex(publicKey)
    case None => (t, false)
    case Some(k) => if !Dialable(ep) then (t, false) else IpcSet(t, [PublicKey(k), UpdateOnly, Endpoint(ep)], fault)
  }

  /** Removal leaves no entry and no address; removing an absent peer is harmless. */
  lemma RemoveMeaning(hex: KeyCodec, t: Table, publicKey: string)
    requires WellFormed(t) && hex(publicKey).Some?
    ensures RemovePeer(hex, t, publicKey, None) == (Without(t, hex(publicKey).value), true)
  {
    var k := hex(publicKey).value;
    var (t1, c1) := Feed(t, Dummy, PublicKey(k));
    assert [PublicKey(k), Remove][1..] == [Remove];
    assert FeedAll(t1, c1, [Remove]) == Without(t1, k);
    assert Without(t1, k) == Without(t, k);
  }

  /** Moving an endpoint touches that endpoint and nothing else, and creates nobody. */
  lemma EndpointMeaning(hex: KeyCodec, t: Table, publicKey: string, ep: AddrPort)
    requires WellFormed(t) && hex(publicKey).Some? && Dialable(ep)
    ensures var k := hex(publicKey).value;
            SetPeerEndpoint(hex, t, publicKey, ep, None) ==
            (if k in t.peers then t.(peers := t.peers[k := t.peers[k].(endpoint := Some(ep))]) else t, true)
  {
    var k := hex(publicKey).value;
    var (t1, c1) := Feed(t, Dummy, PublicKey(k));
    var lines := [PublicKey(k), UpdateOnly, Endpoint(ep)];
    assert lines[1..] == [UpdateOnly, Endpoint(ep)] && lines[1..][1..] == [Endpoint(ep)];
    var (t2, c2) := Feed(t1, c1, UpdateOnly);
    var t3 := Feed(t2, c2, Endpoint(ep)).0;
    assert FeedAll(t2, c2, [Endpoint(ep)]) == t3;
    assert FeedAll(t1, c1, lines[1..]) == t3;
    assert k !in t.peers ==> Without(t1, k) == t;
  }

  lemma OneLineOnlyNamedKey(t: Table, c: Cursor, l: Line, k: Key)
    requires c.At? ==> c.key == k && k in t.peers
    requires l.PublicKey? ==> l.key == k
    ensures var (t', c') := Feed(t, c, l);
            && (c'.At? ==> c'.key == k)
            && t'.peers.Keys + {k} == t.peers.Keys + {k}
            && (forall other :: other in t.peers && other != k ==> t'.peers[other] == t.peers[other])
            && (WellFormed(t) ==> WellFormed(t'))
  {
  }

  /** Whatever happens, a block that names one key creates and removes no other. */
  lemma {:induction false} OnlyNamedKey(t: Table, c: Cursor, lines: seq<Line>, k: Key)
    requires c.At? ==> c.key == k && k in t.peers
    requires forall l :: l in lines && l.PublicKey? ==> l.key == k
    ensures FeedAll(t, c, lines).peers.Keys + {k} == t.peers.Keys + {k}
    ensures forall other :: other in t.peers && other != k ==> FeedAll(t, c, lines).peers[other] == t.peers[other]
    ensures WellFormed(t) ==> WellFormed(FeedAll(t, c, lines))
    decreases lines
  {
    if lines != [] {
      var (t', c') := Feed(t, c, lines[0]);
      assert lines[0] in lines;
      OneLineOnlyNamedKey(t, c, lines[0], k);
      hide Feed, WellFormed;
      OnlyNamedKey(t', c', lines[1..], k);
    }
  }

  lemma OneLineOthers(t: Table, c: Cursor, l: Line, j: Key, k: Key)
    requires j != k && (c.At? ==> c.key == j && j in t.peers) && (l.PublicKey? ==> l.key == j)
    ensures var t' := Feed(t, c, l).0;
            && (forall a :: a in t'.owner && t'.owner[a] == k ==> a in t.owner && t.owner[a] == k)
            && (forall a :: a in t.owner && t.owner[a] == k && l != AllowedIP(a) ==> a in t'.owner && t'.owner[a] == k)
  {
  }

  /** The addresses of a key that a block does not name change hands only when the block claims them. */
  lemma {:induction false} OthersAddresses(t: Table, c: Cursor, lines: seq<Line>, j: Key, k: Key)
    requires j != k && (c.At? ==> c.key == j && j in t.peers)
    requires forall l :: l in lines && l.PublicKey? ==> l.key == j
    ensures var t' := FeedAll(t, c, lines);
            && (forall a :: a in t'.owner && t'.owner[a] == k ==> a in t.owner && t.owner[a] == k)
            && (forall a :: a in t.owner && t.owner[a] == k && AllowedIP(a) !in lines ==>
                 a in t'.owner && t'.owner[a] == k)
    decreases lines
  {
    if lines != [] {
      var l := lines[0];
      var (t', c') := Feed(t, c, l);
      assert l in lines;
      OneLineOnlyNamedKey(t, c, l, j);
      OneLineOthers(t, c, l, j, k);
      hide Feed, WellFormed;
      OthersAddresses(t', c', lines[1..], j, k);
    }
  }

  /** Without a remove line a block takes no peer off the device: update_only takes back only what it created. */
  lemma {:induction false} NothingRemoved(t: Table, c: Cursor, lines: seq<Line>, kept: set<Key>)
    requires (c.At? ==> c.key in t.peers && (c.created ==> c.key !in kept)) && kept <= t.peers.Keys
    requires forall l :: l in lines ==> !l.Remove?
    ensures kept <= FeedAll(t, c, lines).peers.Keys
    decreases lines
  {
    if lines != [] {
      var (t', c') := Feed(t, c, lines[0]);
      assert lines[0] in lines;
      NothingRemoved(t', c', lines[1..], kept);
    }
  }

  // --------------------------------------------------------------------
  // The object
  // --------------------------------------------------------------------

  class TunnelDevice {
    const hex: KeyCodec
    var table: Table

    constructor (hex: KeyCodec)
      ensures this.hex == hex && table == EMPTY
    {
      this.hex := hex;
      table := EMPTY;
    }

    /** Renders the block piece by piece, as the configuration string is built. */
    method IpcConfig(p: DevicePeer, updateOnly: bool) returns (r: Rendered)
      ensures r == Render(hex, p, updateOnly)
      ensures r.Lines? <==>
                && hex(p.publicKey).Some? && hex(p.psk).Some? && InSubnet(p.allowedIP)
                && (p.endpoint.Some? ==> !p.endpoint.value.addr.Invalid? && p.endpoint.value.port != 0)
    {
      var pub := hex(p.publicKey);
      if pub.None? {
        return Rejected(BadPublicKey);
      }
      var psk := hex(p.psk);
      if psk.None? {
        return Rejected(BadPresharedKey);
      }
      if p.allowedIP.Invalid? {
        return Rejected(NoAllowedIP);
      }
      if !InSubnet(p.allowedIP) {
        return Rejected(OutsideSubnet);
      }
      var b := [PublicKey(pub.value)];
      if updateOnly {
        b := b + [UpdateOnly];
      }
      b := b + [PresharedKey(psk.value)];
      if p.endpoint.Some? {
        if !Dialable(p.endpoint.value) {
          return Rejected(BadEndpoint);
        }
        b := b + [Endpoint(p.endpoint.value)];
      }
      b := b + [ReplaceAllowedIPs, AllowedIP(p.allowedIP)];
      if p.endpoint.Some? {
        b := b + [Keepalive(KEEPALIVE_INTERVAL)];
      }
      return Lines(b);
    }

    method AddPeer(p: DevicePeer, fault: Option<nat>) returns (ok: bool)
      modifies this
      ensures (table, ok) == ApplyPeer(hex, old(table), p, false, fault)
      ensures ok && WellFormed(old(table)) ==> Configured(hex, old(table), p, table)
    {
      if WellFormed(table) && ApplyPeer(hex, table, p, false, fault).1 {
        BlockMeaning(hex, table, p, false);
        InstalledConfigures(hex, table, p);
      }
      var r := IpcConfig(p, false);
      if r.Rejected? {
        return false;
      }
      table, ok := IpcSet(table, r.lines, fault).0, fault.None?;
    }

    method UpdatePeer(p: DevicePeer, fault: Option<nat>) returns (ok: bool)
      modifies this
      ensures (table, ok) == ApplyPeer(hex, old(table), p, true, fault)
      ensures ok && WellFormed(old(table)) ==>
                hex(p.publicKey).Some?
                && if hex(p.publicKey).value in old(table).peers then Configured(hex, old(table), p, table)
                  else table == old(table)
    {
      if WellFormed(table) && ApplyPeer(hex, table, p, true, fault).1 {
        BlockMeaning(hex, table, p, true);
        InstalledConfigures(hex, table, p);
      }
      var r := IpcConfig(p, true);
      if r.Rejected? {
        return false;
      }
      table, ok := IpcSet(table, r.lines, fault).0, fault.None?;
    }

    method Remove(publicKey: string, fault: Option<nat>) returns (ok: bool)
      modifies this
      ensures (table, ok) == RemovePeer(hex, old(table), publicKey, fault)
      ensures ok <==> hex(publicKey).Some? && fault.None?
    {
      var pub := hex(publicKey);
      if pub.None? {
        return false;
      }
      table, ok := IpcSet(table, [PublicKey(pub.value), Line.Remove], fault).0, fault.None?;
    }

    method MoveEndpoint(publicKey: string, ep: AddrPort, fault: Option<nat>) returns (ok: bool)
      modifies this
      ensures (table, ok) == SetPeerEndpoint(hex, old(table), publicKey, ep, fault)
      ensures ok <==> hex(publicKey).Some? && !ep.addr.Invalid? && ep.port != 0 && fault.None?
    {
      var pub := hex(publicKey);
      if pub.None? || !Dialable(ep) {
        return false;
      }
      table, ok := IpcSet(table, [PublicKey(pub.value), UpdateOnly, Endpoint(ep)], fault).0, fault.None?;
    }
  }
}
