/**
 peers.yaml after decoding: validation of one entry, the whole list, and the
 authorization policy built from it. Parsers of the standard library and key
 and reference syntax checks are parameters, collected in `Checks`.
 */
module Peers {
  import opened Prelude
  import opened Addresses
  import Limiter
  import Wire

  datatype RawPeer = RawPeer(name: string, publicKey: string, psk: string, tunnelIP: string,
                             maxConcurrent: int, dialsPerSecond: int, allow: map<string, string>)

  datatype PeerConfig = PeerConfig(name: string, publicKey: string, psk: string, tunnelIP: Addr,
                                   limits: Limiter.Limits, allow: map<string, AddrPort>)

  type Policy = map<Addr, map<string, AddrPort>>

  datatype PeersConfig = PeersConfig(peers: seq<PeerConfig>, policy: Policy)

  datatype Checks = Checks(parseAddr: string -> Option<Addr>, parseAddrPort: string -> Option<AddrPort>,
                           keyOk: string -> bool, refOk: string -> bool)

  datatype PeerError =
    | NameRequired | NameInvalid | KeyInvalid | PskInvalid | IPRequired | IPUnparsable | IPUnspecified
    | IPOutsideSubnet | IPIsServer | IPNotHost | LimitsNegative | ServiceInvalid | BackendInvalid | BackendPortZero

  datatype Result<+T, +E> = Ok(value: T) | Err(error: E)

  const DEFAULT_MAX_CONCURRENT := 32
  const DEFAULT_DIALS_PER_SECOND := 10

  function ParseTunnelIP(c: Checks, s: string): Result<Addr, PeerError> {
    if s == "" then Err(IPRequired)
    else match c.parseAddr(s)
      case None => Err(IPUnparsable)
      case Some(raw) =>
        var a := Unmap(raw);
        if a.Invalid? || IsUnspecified(a) then Err(IPUnspecified) else Ok(a)
  }

  /** The part of a peer entry that does not involve its grants. */
  function ValidateIdentity(c: Checks, rp: RawPeer): Result<Addr, PeerError> {
    if rp.name == "" then Err(NameRequired)
    else if !Wire.ValidServiceName(rp.name) then Err(NameInvalid)
    else if !c.keyOk(rp.publicKey) then Err(KeyInvalid)
    else if !c.refOk(rp.psk) then Err(PskInvalid)
    else match ParseTunnelIP(c, rp.tunnelIP)
      case Err(e) => Err(e)
      case Ok(a) =>
        if !InSubnet(a) then Err(IPOutsideSubnet)
        else if a == SERVER_IP then Err(IPIsServer)
        else if a == V4(Masked(SUBNET_BASE, SUBNET_BITS))
          || a.bits == SubnetBroadcast(SUBNET_BASE, SUBNET_BITS) then Err(IPNotHost)
        else if rp.maxConcurrent < 0 || rp.dialsPerSecond < 0 then Err(LimitsNegative)
        else Ok(a)
  }

  /** One grant: a literal address and a non-zero port, the address unmapped. */
  function ValidateGrant(c: Checks, service: string, backend: string): Result<AddrPort, PeerError> {
    if !Wire.ValidServiceName(service) then Err(ServiceInvalid)
    else match c.parseAddrPort(backend)
      case None => Err(BackendInvalid)
      case Some(ap) =>
        if ap.addr.Invalid? || ap.port == 0 then Err(BackendPortZero)
        else Ok(AddrPort(Unmap(ap.addr), ap.port))
  }

  function OrDefault(x: int, default: int): int { if x == 0 then default else x }

  predicate GrantsValid(c: Checks, allow: map<string, string>) {
    forall s :: s in allow ==> ValidateGrant(c, s, allow[s]).Ok?
  }

  predicate Valid(c: Checks, rp: RawPeer) {
    ValidateIdentity(c, rp).Ok? && GrantsValid(c, rp.allow)
  }

  function Validated(c: Checks, rp: RawPeer): PeerConfig
    requires Valid(c, rp)
  {
    PeerConfig(rp.name, rp.publicKey, rp.psk, ValidateIdentity(c, rp).value,
               Limiter.Limits(OrDefault(rp.maxConcurrent, DEFAULT_MAX_CONCURRENT),
                 OrDefault(rp.dialsPerSecond, DEFAULT_DIALS_PER_SECOND)),
               map s | s in rp.allow :: ValidateGrant(c, s, rp.allow[s]).value)
  }

  // What an entry must be, what is loaded from it, and which error it earns, field by field.

  /** A backend is a literal address, in either spelling, and a port. */
  predicate GrantFits(c: Checks, service: string, backend: string) {
    && Wire.ValidServiceName(service) && c.parseAddrPort(backend).Some?
    && !c.parseAddrPort(backend).value.addr.Invalid? && c.parseAddrPort(backend).value.port != 0
  }

  /** The tunnel address is 10.99.0.2 to 10.99.0.254, in either spelling. */
  predicate AddressFits(c: Checks, s: string) {
    && s != "" && c.parseAddr(s).Some?
    && var a := Unmap(c.parseAddr(s).value); a.V4? && 2 <= a.bits - SUBNET_BASE <= 254
  }

  predicate Fits(c: Checks, rp: RawPeer) {
    && Wire.ValidServiceName(rp.name) && c.keyOk(rp.publicKey) && c.refOk(rp.psk) && AddressFits(c, rp.tunnelIP)
    && 0 <= rp.maxConcurrent && 0 <= rp.dialsPerSecond
    && forall s :: s in rp.allow ==> GrantFits(c, s, rp.allow[s])
  }

  predicate LoadedFrom(c: Checks, rp: RawPeer, p: PeerConfig) {
    && p.name == rp.name && p.publicKey == rp.publicKey && p.psk == rp.psk
    && c.parseAddr(rp.tunnelIP).Some? && p.tunnelIP == Unmap(c.parseAddr(rp.tunnelIP).value)
    && p.limits.maxConcurrent == (if rp.maxConcurrent == 0 then 32 else rp.maxConcurrent)
    && p.limits.dialsPerSecond == (if rp.dialsPerSecond == 0 then 10 else rp.dialsPerSecond)
    && p.allow.Keys == rp.allow.Keys
    && forall s :: s in rp.allow ==>
         && c.parseAddrPort(rp.allow[s]).Some?
         && var to := c.parseAddrPort(rp.allow[s]).value; p.allow[s] == AddrPort(Unmap(to.addr), to.port)
  }

  /** The check an error names fails on the entry. */
  predicate Fails(c: Checks, rp: RawPeer, e: PeerError) {
    match e
    case NameRequired => rp.name == ""
    case NameInvalid => !Wire.ValidServiceName(rp.name)
    case KeyInvalid => !c.keyOk(rp.publicKey)
    case PskInvalid => !c.refOk(rp.psk)
    case IPRequired => rp.tunnelIP == ""
    case IPUnparsable => c.parseAddr(rp.tunnelIP).None?
    case IPUnspecified => c.parseAddr(rp.tunnelIP).Some? && Unmap(c.parseAddr(rp.tunnelIP).value) in UNUSABLE
    case IPOutsideSubnet =>
      c.parseAddr(rp.tunnelIP).Some? && !InSubnet(Unmap(c.parseAddr(rp.tunnelIP).value))
    case IPIsServer => c.parseAddr(rp.tunnelIP).Some? && Unmap(c.parseAddr(rp.tunnelIP).value) == SERVER_IP
    case IPNotHost =>
      c.parseAddr(rp.tunnelIP).Some? && Unmap(c.parseAddr(rp.tunnelIP).value) in NETWORK_ADDRESSES
    case LimitsNegative => rp.maxConcurrent < 0 || rp.dialsPerSecond < 0
    case ServiceInvalid => exists s :: s in rp.allow && !Wire.ValidServiceName(s)
    case BackendInvalid => exists s :: s in rp.allow && c.parseAddrPort(rp.allow[s]).None?
    case BackendPortZero =>
      exists s :: s in rp.allow && c.parseAddrPort(rp.allow[s]).Some?
               && var to := c.parseAddrPort(rp.allow[s]).value; to.addr.Invalid? || to.port == 0
  }

  const UNUSABLE := {Invalid, V4(0), V6(0, "")}
  const NETWORK_ADDRESSES := {V4(SUBNET_BASE), V4(SUBNET_BASE + 255)}

  /** The order of the checks; grants come last, in no order. */
  function Turn(e: PeerError): nat {
    match e
    case NameRequired => 0
    case NameInvalid => 1
    case KeyInvalid => 2
    case PskInvalid => 3
    case IPRequired => 4
    case IPUnparsable => 5
    case IPUnspecified => 6
    case IPOutsideSubnet => 7
    case IPIsServer => 8
    case IPNotHost => 9
    case LimitsNegative => 10
    case ServiceInvalid | BackendInvalid | BackendPortZero => 11
  }

  predicate FirstFailure(c: Checks, rp: RawPeer, e: PeerError) {
    Fails(c, rp, e) && forall earlier :: Turn(earlier) < Turn(e) ==> !Fails(c, rp, earlier)
  }

  lemma SubnetEnds()
    ensures Masked(SUBNET_BASE, SUBNET_BITS) == SUBNET_BASE
    ensures SubnetBroadcast(SUBNET_BASE, SUBNET_BITS) == SUBNET_BASE + 255
  {
    assert Pow2(8) == 256 by {
      assert Pow2(4) == 16;
    }
    assert SUBNET_BASE % 256 == 0;
  }

  lemma IdentityExact(c: Checks, rp: RawPeer)
    ensures ValidateIdentity(c, rp).Ok? <==>
              && Wire.ValidServiceName(rp.name) && c.keyOk(rp.publicKey) && c.refOk(rp.psk)
              && AddressFits(c, rp.tunnelIP) && 0 <= rp.maxConcurrent && 0 <= rp.dialsPerSecond
    ensures ValidateIdentity(c, rp).Ok? ==> ValidateIdentity(c, rp).value == Unmap(c.parseAddr(rp.tunnelIP).value)
  {
    SubnetEnds();
    hide Masked, SubnetBroadcast, Wire.ValidServiceName;
    assert rp.name == "" ==> !Wire.ValidServiceName(rp.name) by {
      NoEmptyName();
    }
  }

  lemma NoEmptyName()
    ensures !Wire.ValidServiceName("")
  {
  }

  lemma IdentityError(c: Checks, rp: RawPeer)
    requires ValidateIdentity(c, rp).Err?
    ensures FirstFailure(c, rp, ValidateIdentity(c, rp).error)
  {
    SubnetEnds();
    hide Masked, SubnetBroadcast, Wire.ValidServiceName;
  }

  lemma GrantError(c: Checks, rp: RawPeer, s: string)
    requires ValidateIdentity(c, rp).Ok? && s in rp.allow && ValidateGrant(c, s, rp.allow[s]).Err?
    ensures FirstFailure(c, rp, ValidateGrant(c, s, rp.allow[s]).error)
  {
    SubnetEnds();
    NoEmptyName();
    hide Masked, SubnetBroadcast, Wire.ValidServiceName;
  }

  lemma GrantExact(c: Checks, service: string, backend: string)
    ensures ValidateGrant(c, service, backend).Ok? <==> GrantFits(c, service, backend)
    ensures GrantFits(c, service, backend) ==>
              var to := c.parseAddrPort(backend).value;
              ValidateGrant(c, service, backend) == Ok(AddrPort(Unmap(to.addr), to.port))
  {
  }

  lemma ValidExact(c: Checks, rp: RawPeer)
    ensures Valid(c, rp) <==> Fits(c, rp)
    ensures Valid(c, rp) ==> LoadedFrom(c, rp, Validated(c, rp))
  {
    IdentityExact(c, rp);
    forall s | s in rp.allow ensures ValidateGrant(c, s, rp.allow[s]).Ok? <==> GrantFits(c, s, rp.allow[s]) {
      GrantExact(c, s, rp.allow[s]);
    }
    if Valid(c, rp) {
      forall s | s in rp.allow
        ensures c.parseAddrPort(rp.allow[s]).Some?
        ensures var to := c.parseAddrPort(rp.allow[s]).value;
                ValidateGrant(c, s, rp.allow[s]) == Ok(AddrPort(Unmap(to.addr), to.port))
      {
        GrantExact(c, s, rp.allow[s]);
      }
    }
    hide ValidateIdentity, ValidateGrant, GrantFits, AddressFits, Unmap, Wire.ValidServiceName;
  }

  /** Grants are visited in no particular order; the first bad one is reported. */
  method ValidateGrants(c: Checks, raw: map<string, string>) returns (r: Result<map<string, AddrPort>, PeerError>)
    ensures r.Ok? <==> GrantsValid(c, raw)
    ensures r.Ok? ==> r.value.Keys == raw.Keys && forall s :: s in raw ==> ValidateGrant(c, s, raw[s]) == Ok(r.value[s])
    ensures r.Err? ==> exists s :: s in raw && ValidateGrant(c, s, raw[s]) == Err(r.error)
  {
    hide ValidateGrant;
    var allow: map<string, AddrPort> := map[];
    var todo := raw.Keys;
    while todo != {}
      invariant todo <= raw.Keys && allow.Keys == raw.Keys - todo
      invariant forall s :: s in allow ==> ValidateGrant(c, s, raw[s]) == Ok(allow[s])
      decreases |todo|
    {
      var s :| s in todo;
      var g := ValidateGrant(c, s, raw[s]);
      if g.Err? {
        return Err(g.error);
      }
      allow := allow[s := g.value];
      todo := todo - {s};
    }
    return Ok(allow);
  }

  method ValidatePeer(c: Checks, rp: RawPeer) returns (r: Result<PeerConfig, PeerError>)
    ensures r.Ok? <==> Fits(c, rp)
    ensures r.Ok? ==> LoadedFrom(c, rp, r.value) && Valid(c, rp) && r.value == Validated(c, rp)
    ensures r.Err? ==> FirstFailure(c, rp, r.error)
  {
    ValidExact(c, rp);
    hide ValidateIdentity, ValidateGrant, Fits, LoadedFrom, FirstFailure;
    var identity := ValidateIdentity(c, rp);
    if identity.Err? {
      IdentityError(c, rp);
      return Err(identity.error);
    }
    var limits := Limiter.Limits(rp.maxConcurrent, rp.dialsPerSecond);
    if limits.maxConcurrent == 0 {
      limits := limits.(maxConcurrent := DEFAULT_MAX_CONCURRENT);
    }
    if limits.dialsPerSecond == 0 {
      limits := limits.(dialsPerSecond := DEFAULT_DIALS_PER_SECOND);
    }
    var allow := ValidateGrants(c, rp.allow);
    if allow.Err? {
      var s :| s in rp.allow && ValidateGrant(c, s, rp.allow[s]) == Err(allow.error);
      GrantError(c, rp, s);
      return Err(allow.error);
    }
    var p := PeerConfig(rp.name, rp.publicKey, rp.psk, identity.value, limits, allow.value);
    assert p.allow == Validated(c, rp).allow;
    assert p == Validated(c, rp);
    return Ok(p);
  }

  // --------------------------------------------------------------------
  // Policy
  // --------------------------------------------------------------------

  datatype PeerPolicy = PeerPolicy(tunnelIP: Addr, allow: map<string, AddrPort>)

  predicate GrantUsable(service: string, backend: AddrPort) {
    Wire.ValidServiceName(service) && !backend.addr.Invalid? && backend.port != 0 && !IsUnspecified(backend.addr)
  }

  predicate Identifies(ip: Addr) {
    !ip.Invalid? && !IsUnspecified(Unmap(ip))
  }

  predicate PolicyAcceptable(ps: seq<PeerPolicy>) {
    && (forall p :: p in ps ==> Identifies(p.tunnelIP) && forall s :: s in p.allow ==> GrantUsable(s, p.allow[s]))
    && (forall i, j :: 0 <= i < j < |ps| ==> Unmap(ps[i].tunnelIP) != Unmap(ps[j].tunnelIP))
  }

  function Resolve(p: Policy, ip: Addr, service: string): Option<AddrPort> {
    if Unmap(ip) !in p then None
    else if service !in p[Unmap(ip)] then None
    else Some(p[Unmap(ip)][service])
  }

  /** The reference answer: walk the list to the peer at this address. */
  function Search(ps: seq<PeerPolicy>, ip: Addr, service: string): Option<AddrPort> {
    if ps == [] then None
    else if Unmap(ps[0].tunnelIP) == Unmap(ip) then
      if service in ps[0].allow then Some(ps[0].allow[service]) else None
    else Search(ps[1..], ip, service)
  }

  predicate DistinctAddresses(ps: seq<PeerPolicy>) {
    forall i, j :: 0 <= i < j < |ps| ==> Unmap(ps[i].tunnelIP) != Unmap(ps[j].tunnelIP)
  }

  /** With distinct addresses the walk answers from the one peer there, and from no other. */
  lemma {:induction false} SearchFinds(ps: seq<PeerPolicy>, i: nat, ip: Addr, service: string)
    requires DistinctAddresses(ps) && i < |ps| && Unmap(ps[i].tunnelIP) == Unmap(ip)
    ensures Search(ps, ip, service) == if service in ps[i].allow then Some(ps[i].allow[service]) else None
    decreases i
  {
    if i > 0 {
      SearchFinds(ps[1..], i - 1, ip, service);
    }
  }

  lemma {:induction false} SearchMisses(ps: seq<PeerPolicy>, ip: Addr, service: string)
    requires forall p :: p in ps ==> Unmap(p.tunnelIP) != Unmap(ip)
    ensures Search(ps, ip, service).None?
    decreases ps
  {
    if ps != [] {
      SearchMisses(ps[1..], ip, service);
    }
  }

  predicate Indexes(m: Policy, ps: seq<PeerPolicy>) {
    && (forall p :: p in ps ==> Unmap(p.tunnelIP) in m && m[Unmap(p.tunnelIP)] == p.allow)
    && (forall a :: a in m ==> exists p :: p in ps && a == Unmap(p.tunnelIP))
  }

  lemma {:induction false} IndexAnswersSearch(m: Policy, ps: seq<PeerPolicy>, ip: Addr, service: string,
                                              rest: seq<PeerPolicy>)
    requires Indexes(m, ps) && |rest| <= |ps| && ps[|ps| - |rest|..] == rest
    requires forall p :: p in ps[..|ps| - |rest|] ==> Unmap(p.tunnelIP) != Unmap(ip)
    ensures Resolve(m, ip, service) == Search(rest, ip, service)
    decreases rest
  {
    var k := |ps| - |rest|;
    if rest == [] {
      assert ps[..k] == ps;
    } else if Unmap(rest[0].tunnelIP) != Unmap(ip) {
      assert ps[k] == rest[0] && ps[k + 1..] == rest[1..];
      assert ps[..k + 1] == ps[..k] + [ps[k]];
      IndexAnswersSearch(m, ps, ip, service, rest[1..]);
    } else {
      assert rest[0] in ps;
    }
  }

  method NewPolicy(ps: seq<PeerPolicy>) returns (r: Option<Policy>)
    ensures r.Some? <==> PolicyAcceptable(ps)
    ensures r.Some? ==> forall ip, service :: Resolve(r.value, ip, service) == Search(ps, ip, service)
  {
    var m: Policy := map[];
    for i := 0 to |ps|
      invariant Indexes(m, ps[..i]) && PolicyAcceptable(ps[..i])
    {
      var p := ps[i];
      if p.tunnelIP.Invalid? {
        return None;
      }
      var ip := Unmap(p.tunnelIP);
      if IsUnspecified(ip) {
        return None;
      }
      if ip in m {
        var q :| q in ps[..i] && ip == Unmap(q.tunnelIP);
        return None;
      }
      var allow := CopyGrants(p.allow);
      if allow.None? {
        return None;
      }
      assert ps[..i + 1] == ps[..i] + [p];
      m := m[ip := allow.value];
    }
    assert ps[..|ps|] == ps;
    forall ip, service ensures Resolve(m, ip, service) == Search(ps, ip, service) {
      IndexAnswersSearch(m, ps, ip, service, ps);
    }
    return Some(m);
  }

  method CopyGrants(allow: map<string, AddrPort>) returns (r: Option<map<string, AddrPort>>)
    ensures r == if forall s :: s in allow ==> GrantUsable(s, allow[s]) then Some(allow) else None
  {
    var copy: map<string, AddrPort> := map[];
    var todo := allow.Keys;
    while todo != {}
      invariant todo <= allow.Keys && copy.Keys == allow.Keys - todo
      invariant forall s :: s in copy ==> copy[s] == allow[s] && GrantUsable(s, allow[s])
      decreases |todo|
    {
      var s :| s in todo;
      if !GrantUsable(s, allow[s]) {
        return None;
      }
      copy := copy[s := allow[s]];
      todo := todo - {s};
    }
    assert copy == allow;
    return Some(copy);
  }

  // --------------------------------------------------------------------
  // The whole list
  // --------------------------------------------------------------------

  predicate Distinct(peers: seq<PeerConfig>) {
    forall i, j :: 0 <= i < j < |peers| ==>
      peers[i].name != peers[j].name && peers[i].publicKey != peers[j].publicKey
        && peers[i].tunnelIP != peers[j].tunnelIP
  }

  predicate IsHost(a: Addr) {
    InSubnet(a) && a != SERVER_IP && SUBNET_BASE < a.bits < SUBNET_BASE + 255
  }

  /** What every list in force satisfies. */
  predicate Accepted(peers: seq<PeerConfig>) {
    && Distinct(peers)
    && (forall p :: p in peers ==> IsHost(p.tunnelIP) && p.limits.maxConcurrent > 0 && p.limits.dialsPerSecond > 0)
  }

  function PolicyInput(peers: seq<PeerConfig>): seq<PeerPolicy> {
    seq(|peers|, i requires 0 <= i < |peers| => PeerPolicy(peers[i].tunnelIP, peers[i].allow))
  }

  predicate AllValid(c: Checks, raw: seq<RawPeer>) {
    forall rp :: rp in raw ==> Valid(c, rp)
  }

  function ValidatedAll(c: Checks, raw: seq<RawPeer>): seq<PeerConfig>
    requires AllValid(c, raw)
  {
    seq(|raw|, i requires 0 <= i < |raw| => Validated(c, raw[i]))
  }

  lemma ValidatedIsHost(c: Checks, rp: RawPeer)
    requires Valid(c, rp)
    ensures var p := Validated(c, rp); IsHost(p.tunnelIP) && p.limits.maxConcurrent > 0 && p.limits.dialsPerSecond > 0
  {
    SubnetEnds();
  }

  predicate Clash(q: PeerConfig, p: PeerConfig) {
    q.name == p.name || q.publicKey == p.publicKey || q.tunnelIP == p.tunnelIP
  }

  /** A peer that clashes with an earlier one spoils every list it belongs to. */
  lemma ClashRejects(c: Checks, raw: seq<RawPeer>, i: nat, p: PeerConfig)
    requires i < |raw| && AllValid(c, raw[..i]) && Valid(c, raw[i]) && p == Validated(c, raw[i])
    requires exists q :: q in ValidatedAll(c, raw[..i]) && Clash(q, p)
    ensures !(AllValid(c, raw) && Distinct(ValidatedAll(c, raw)))
  {
    hide Valid, Validated;
    if AllValid(c, raw) {
      var all := ValidatedAll(c, raw);
      var q :| q in ValidatedAll(c, raw[..i]) && Clash(q, p);
      var j :| 0 <= j < i && ValidatedAll(c, raw[..i])[j] == q;
      assert all[i] == p && all[j] == q;
    }
  }

  /** No two entries share a name, a key or an address, whatever its spelling. */
  predicate Apart(c: Checks, raw: seq<RawPeer>)
    requires forall rp :: rp in raw ==> c.parseAddr(rp.tunnelIP).Some?
  {
    forall i, j :: 0 <= i < j < |raw| ==>
      && raw[i].name != raw[j].name && raw[i].publicKey != raw[j].publicKey
      && Unmap(c.parseAddr(raw[i].tunnelIP).value) != Unmap(c.parseAddr(raw[j].tunnelIP).value)
  }

  /** No grant leads to the unspecified address. */
  predicate BackendsSpecified(c: Checks, rp: RawPeer) {
    forall s :: s in rp.allow && c.parseAddrPort(rp.allow[s]).Some? ==>
      !IsUnspecified(Unmap(c.parseAddrPort(rp.allow[s]).value.addr))
  }

  ghost predicate Loadable(c: Checks, raw: seq<RawPeer>) {
    (forall rp :: rp in raw ==> Fits(c, rp) && BackendsSpecified(c, rp)) && Apart(c, raw)
  }

  /** What a lookup by a peer's address answers, and by any other. */
  ghost predicate Answers(policy: Policy, peers: seq<PeerConfig>) {
    && (forall p, service :: p in peers ==>
          Resolve(policy, p.tunnelIP, service) == if service in p.allow then Some(p.allow[service]) else None)
    && (forall ip, service :: (forall p :: p in peers ==> p.tunnelIP != Unmap(ip)) ==>
          Resolve(policy, ip, service) == None)
  }

  lemma AllValidExact(c: Checks, raw: seq<RawPeer>)
    ensures AllValid(c, raw) <==> forall rp :: rp in raw ==> Fits(c, rp)
    ensures AllValid(c, raw) ==> forall i :: 0 <= i < |raw| ==> LoadedFrom(c, raw[i], ValidatedAll(c, raw)[i])
  {
    hide Valid, Fits, LoadedFrom, Validated;
    forall rp | rp in raw
      ensures Valid(c, rp) <==> Fits(c, rp)
      ensures Valid(c, rp) ==> LoadedFrom(c, rp, Validated(c, rp))
    {
      ValidExact(c, rp);
    }
  }

  lemma UsableExact(c: Checks, rp: RawPeer, p: PeerConfig)
    requires Fits(c, rp) && LoadedFrom(c, rp, p)
    ensures IsHost(p.tunnelIP) && Unmap(p.tunnelIP) == p.tunnelIP
    ensures Identifies(p.tunnelIP)
    ensures (forall s :: s in p.allow ==> GrantUsable(s, p.allow[s])) <==> BackendsSpecified(c, rp)
  {
    forall s | s in p.allow
      ensures GrantUsable(s, p.allow[s]) <==> !IsUnspecified(Unmap(c.parseAddrPort(rp.allow[s]).value.addr))
    {
      assert s in rp.allow && GrantFits(c, s, rp.allow[s]);
    }
    hide Wire.ValidServiceName, GrantUsable;
  }

  lemma DistinctExact(c: Checks, raw: seq<RawPeer>, peers: seq<PeerConfig>)
    requires |peers| == |raw| && forall i :: 0 <= i < |raw| ==> LoadedFrom(c, raw[i], peers[i])
    requires forall rp :: rp in raw ==> c.parseAddr(rp.tunnelIP).Some?
    ensures Distinct(peers) <==> Apart(c, raw)
  {
    hide Unmap;
    forall i | 0 <= i < |raw|
      ensures peers[i].name == raw[i].name && peers[i].publicKey == raw[i].publicKey
      ensures raw[i] in raw && peers[i].tunnelIP == Unmap(c.parseAddr(raw[i].tunnelIP).value)
    {
      assert LoadedFrom(c, raw[i], peers[i]);
    }
    hide LoadedFrom;
  }

  lemma AcceptableExact(c: Checks, raw: seq<RawPeer>, peers: seq<PeerConfig>)
    requires |peers| == |raw| && Distinct(peers)
    requires forall i :: 0 <= i < |raw| ==> Fits(c, raw[i]) && LoadedFrom(c, raw[i], peers[i])
    ensures PolicyAcceptable(PolicyInput(peers)) <==> forall rp :: rp in raw ==> BackendsSpecified(c, rp)
  {
    hide Fits, Identifies, GrantUsable, BackendsSpecified, Unmap, LoadedFrom, IsHost;
    var input := PolicyInput(peers);
    forall i | 0 <= i < |raw|
      ensures Identifies(input[i].tunnelIP) && Unmap(peers[i].tunnelIP) == peers[i].tunnelIP
      ensures (forall s :: s in input[i].allow ==> GrantUsable(s, input[i].allow[s])) <==> BackendsSpecified(c, raw[i])
    {
      UsableExact(c, raw[i], peers[i]);
    }
    assert forall i, j :: 0 <= i < j < |raw| ==> Unmap(input[i].tunnelIP) != Unmap(input[j].tunnelIP);
    if forall rp :: rp in raw ==> BackendsSpecified(c, rp) {
      forall p | p in input
        ensures Identifies(p.tunnelIP) && forall s :: s in p.allow ==> GrantUsable(s, p.allow[s])
      {
        var i :| 0 <= i < |raw| && input[i] == p;
        assert BackendsSpecified(c, raw[i]);
      }
    } else {
      var i :| 0 <= i < |raw| && !BackendsSpecified(c, raw[i]);
      assert input[i] in input;
    }
  }

  /** In the entries' own terms, the list validates, its peers differ and a policy can be built. */
  lemma LoadableExact(c: Checks, raw: seq<RawPeer>)
    requires AllValid(c, raw)
    ensures Distinct(ValidatedAll(c, raw)) && PolicyAcceptable(PolicyInput(ValidatedAll(c, raw))) <==> Loadable(c, raw)
  {
    AllValidExact(c, raw);
    assert forall i :: 0 <= i < |raw| ==> raw[i] in raw;
    assert forall rp :: rp in raw ==> Fits(c, rp) && c.parseAddr(rp.tunnelIP).Some?;
    hide Fits, LoadedFrom, Valid, Validated, BackendsSpecified, PolicyAcceptable, Distinct, Apart;
    DistinctExact(c, raw, ValidatedAll(c, raw));
    if Distinct(ValidatedAll(c, raw)) {
      AcceptableExact(c, raw, ValidatedAll(c, raw));
    }
  }

  lemma PolicyAnswers(policy: Policy, peers: seq<PeerConfig>)
    requires Accepted(peers)
    requires forall ip, service :: Resolve(policy, ip, service) == Search(PolicyInput(peers), ip, service)
    ensures Answers(policy, peers)
  {
    var input := PolicyInput(peers);
    forall p | p in peers ensures Unmap(p.tunnelIP) == p.tunnelIP {
      assert IsHost(p.tunnelIP);
    }
    assert DistinctAddresses(input) by {
      assert forall i :: 0 <= i < |peers| ==> peers[i] in peers;
    }
    hide Resolve, Search, Unmap, Accepted, DistinctAddresses;
    forall p, service | p in peers
      ensures Resolve(policy, p.tunnelIP, service) == if service in p.allow then Some(p.allow[service]) else None
    {
      var i :| 0 <= i < |peers| && peers[i] == p;
      SearchFinds(input, i, p.tunnelIP, service);
    }
    forall ip, service | forall p :: p in peers ==> p.tunnelIP != Unmap(ip)
      ensures Resolve(policy, ip, service) == None
    {
      SearchMisses(input, ip, service);
    }
  }

  method LoadPeersConfig(c: Checks, raw: seq<RawPeer>) returns (r: Option<PeersConfig>)
    ensures r.Some? <==> Loadable(c, raw)
    ensures r.Some? ==> |r.value.peers| == |raw| && forall i :: 0 <= i < |raw| ==>
                LoadedFrom(c, raw[i], r.value.peers[i])
    ensures r.Some? ==> Accepted(r.value.peers) && Answers(r.value.policy, r.value.peers)
  {
    var peers: seq<PeerConfig> := [];
    var names: set<string>, keys: set<string>, ips: set<Addr> := {}, {}, {};
    for i := 0 to |raw|
      invariant AllValid(c, raw[..i]) && peers == ValidatedAll(c, raw[..i]) && Accepted(peers)
      invariant names == (set p | p in peers :: p.name)
      invariant keys == (set p | p in peers :: p.publicKey)
      invariant ips == (set p | p in peers :: p.tunnelIP)
    {
      assert raw[..i + 1] == raw[..i] + [raw[i]];
      var v := ValidatePeer(c, raw[i]);
      if v.Err? {
        assert raw[i] in raw && !Fits(c, raw[i]);
        return None;
      }
      var p := v.value;
      if p.name in names || p.publicKey in keys || p.tunnelIP in ips {
        assert exists q :: q in peers && Clash(q, p);
        ClashRejects(c, raw, i, p);
        AllValidExact(c, raw);
        if AllValid(c, raw) {
          LoadableExact(c, raw);
        }
        return None;
      }
      ValidatedIsHost(c, raw[i]);
      names, keys, ips := names + {p.name}, keys + {p.publicKey}, ips + {p.tunnelIP};
      peers := peers + [p];
    }
    assert raw[..|raw|] == raw;
    AllValidExact(c, raw);
    LoadableExact(c, raw);
    var policy := NewPolicy(PolicyInput(peers));
    if policy.None? {
      return None;
    }
    PolicyAnswers(policy.value, peers);
    return Some(PeersConfig(peers, policy.value));
  }

  /** An address in its mapped spelling resolves to the same grants. */
  lemma SpellingIrrelevant(p: Policy, bits: u32, zone: string, service: string)
    ensures Resolve(p, V6(MAPPED_PREFIX + bits, zone), service) == Resolve(p, V4(bits), service)
  {
  }

  function Interval(lo: int, n: nat): (r: set<int>)
    ensures |r| == n && forall x :: x in r <==> lo <= x < lo + n
  {
    if n == 0 then {} else Interval(lo, n - 1) + {lo + n - 1}
  }

  lemma {:induction false} DistinctCount(xs: seq<int>)
    requires forall i, j :: 0 <= i < j < |xs| ==> xs[i] != xs[j]
    ensures |set x | x in xs| == |xs|
  {
    if xs != [] {
      DistinctCount(xs[1..]);
      assert xs == [xs[0]] + xs[1..];
      assert (set x | x in xs) == (set x | x in xs[1..]) + {xs[0]};
    }
  }

  lemma {:induction false} SubsetCount<T>(a: set<T>, b: set<T>)
    requires a <= b
    ensures |a| <= |b|
    decreases a
  {
    if |a| > 0 {
      var x: T :| x in a;
      SubsetCount(a - {x}, b - {x});
    }
  }

  /** A /24 less the network, server and broadcast addresses holds 253 peers. */
  lemma AtMost253Peers(peers: seq<PeerConfig>)
    requires Accepted(peers)
    ensures |peers| <= 253
  {
    assert forall i :: 0 <= i < |peers| ==> peers[i] in peers && IsHost(peers[i].tunnelIP);
    var hosts: seq<int> :=
      seq(|peers|, i requires 0 <= i < |peers| && IsHost(peers[i].tunnelIP) => peers[i].tunnelIP.bits);
    DistinctCount(hosts);
    SubsetCount((set x | x in hosts), Interval(SUBNET_BASE + 2, 253));
  }
}
