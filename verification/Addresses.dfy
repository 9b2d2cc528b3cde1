/**
 IP addresses as the program compares them. A string here is a Go string:
 one character per byte.
 */
module Addresses {
  import opened Prelude

  type u32 = x: int | 0 <= x < 0x1_0000_0000

  type u128 = x: int | 0 <= x < 0x1_0000_0000_0000_0000_0000_0000_0000_0000

  /** Two spellings of one address are different values until unmapped. */
  datatype Addr = Invalid | V4(bits: u32) | V6(bits6: u128, zone: string)

  datatype AddrPort = AddrPort(addr: Addr, port: nat)

  const MAPPED_PREFIX := 0xffff_0000_0000

  /** The IPv4-mapped IPv6 form, ::ffff:a.b.c.d (section 2.5.5.2 of RFC 4291). */
  predicate Is4In6(a: Addr) {
    a.V6? && MAPPED_PREFIX <= a.bits6 < MAPPED_PREFIX + 0x1_0000_0000
  }

  function Unmap(a: Addr): Addr {
    if Is4In6(a) then V4(a.bits6 - MAPPED_PREFIX) else a
  }

  predicate IsUnspecified(a: Addr) {
    a == V4(0) || a == V6(0, "")
  }

  // The tunnel subnet is 10.99.0.0/24 and the server sits at 10.99.0.1.
  const SUBNET_BASE := 174260224
  const SUBNET_BITS := 24
  const SERVER_IP := V4(SUBNET_BASE + 1)

  predicate InSubnet(a: Addr) {
    a.V4? && SUBNET_BASE <= a.bits < SUBNET_BASE + 256
  }

  function Pow2(n: nat): (r: nat)
    ensures r > 0
  {
    if n == 0 then 1 else 2 * Pow2(n - 1)
  }

  /** The network part of an address, as a number. */
  function Network(a: nat, prefixLen: nat): int
    requires prefixLen <= 32
  {
    a / Pow2(32 - prefixLen)
  }

  function Masked(a: nat, prefixLen: nat): int
    requires prefixLen <= 32
  {
    Pow2(32 - prefixLen) * Network(a, prefixLen)
  }

  /**
   The all-ones host address of an IPv4 prefix. The masked base has no host
   bits, so the source's bitwise or is a sum.
   */
  function SubnetBroadcast(base: nat, prefixLen: nat): int
    requires prefixLen <= 32
  {
    Masked(base, prefixLen) + (Pow2(32 - prefixLen) - 1)
  }

  /** It is the last address of the prefix. */
  lemma BroadcastIsLast(base: nat, prefixLen: nat, a: nat)
    requires prefixLen <= 32
    ensures Network(a, prefixLen) == Network(base, prefixLen) ==> a <= SubnetBroadcast(base, prefixLen)
    ensures Network(a, prefixLen) > Network(base, prefixLen) ==> a > SubnetBroadcast(base, prefixLen)
  {
    var size, q, p := Pow2(32 - prefixLen), Network(a, prefixLen), Network(base, prefixLen);
    assert a == size * q + a % size;
    if q > p {
      Grows(size, p + 1, q);
    }
  }

  lemma Grows(d: nat, x: int, y: int)
    requires x <= y
    ensures d * x <= d * y
  {
  }
}
