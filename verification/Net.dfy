/** Addresses, transport protocols and flow tuples. */
module Net {
  import opened Bytes

  type u128 = x: int | 0 <= x < 0x1_0000_0000_0000_0000_0000_0000_0000_0000

  /** An IP address as the number its octets spell. */
  datatype IpAddr = V4(v4: u32) | V6(v6: u128)

  datatype IpProto = Icmp | Tcp | Udp

  datatype FlowTuple = FlowTuple(src: IpAddr, srcPort: u16, dst: IpAddr, dstPort: u16, protocol: IpProto)
  {
    /** The tuple of a packet travelling the other way. */
    function Reverse(): FlowTuple { FlowTuple(dst, dstPort, src, srcPort, protocol) }
  }

  function Pow2(n: nat): (p: nat)
    ensures p > 0
  {
    if n == 0 then 1 else 2 * Pow2(n - 1)
  }

  lemma {:induction false} PowAdd(a: nat, b: nat)
    ensures Pow2(a + b) == Pow2(a) * Pow2(b)
  {
    if a > 0 { PowAdd(a - 1, b); assert Pow2(a + b) == 2 * Pow2(a - 1 + b); }
  }

  lemma PowValues()
    ensures Pow2(16) == 0x1_0000
    ensures Pow2(32) == 0x1_0000_0000
    ensures Pow2(64) == 0x1_0000_0000_0000_0000
    ensures Pow2(128) == 0x1_0000_0000_0000_0000_0000_0000_0000_0000
  {
    assert Pow2(4) == 16;
    hide Pow2;
    PowDouble(4, 16);
    PowDouble(8, 0x100);
    PowDouble(16, 0x1_0000);
    PowDouble(32, 0x1_0000_0000);
    PowDouble(64, 0x1_0000_0000_0000_0000);
  }

  lemma PowDouble(a: nat, v: nat)
    requires Pow2(a) == v
    ensures Pow2(a + a) == v * v
  {
    PowAdd(a, a);
  }

  lemma {:induction false} PowGrows(a: nat, b: nat)
    requires a <= b
    ensures Pow2(a) <= Pow2(b)
  {
    if a < b { PowGrows(a, b - 1); }
  }

  /** Euclidean division is unique. */
  lemma DivModUnique(x: nat, m: nat, q: nat, r: nat)
    requires r < m && x == q * m + r
    ensures x / m == q && x % m == r
  {
    var d := q - x / m;
    assert d * m == x % m - r by { assert x == x / m * m + x % m; }
    AwayFromZero(d, m);
  }

  lemma AwayFromZero(d: int, m: nat)
    ensures d >= 1 ==> d * m >= m
    ensures d <= -1 ==> d * m + m <= 0
  {
  }

  type len4 = x: int | 0 <= x <= 32
  type len6 = x: int | 0 <= x <= 128

  /** An address with a prefix length; host bits may be set. */
  datatype IpNet = Net4(addr4: u32, len4: len4) | Net6(addr6: u128, len6: len6)
  {
    function Bits(): nat { if Net4? then 32 else 128 }

    function PrefixLen(): nat { if Net4? then len4 else len6 }

    function Addr(): nat { if Net4? then addr4 else addr6 }

    /** Number of addresses under the prefix. */
    function Block(): (b: nat)
      ensures b > 0
    {
      Pow2(Bits() - PrefixLen())
    }

    predicate SameFamily(ip: IpAddr) { Net4? == ip.V4? }

    predicate Contains(ip: IpAddr)
    {
      SameFamily(ip) && Number(ip) / Block() == Addr() / Block()
    }

    /** No host bit is set. */
    predicate Canonical() { Addr() % Block() == 0 }
  }

  /** A network contains the addresses of its family that agree with it in the first
      `PrefixLen` of 32 or 128 bits. */
  lemma ContainsSameBits(net: IpNet, ip: IpAddr)
    ensures net.Net4? ==>
              && net.PrefixLen() == net.len4
              && (net.Contains(ip) <==> ip.V4? && ip.v4 / Pow2(32 - net.len4) == net.addr4 / Pow2(32 - net.len4))
    ensures net.Net6? ==>
              && net.PrefixLen() == net.len6
              && (net.Contains(ip) <==> ip.V6? && ip.v6 / Pow2(128 - net.len6) == net.addr6 / Pow2(128 - net.len6))
  {
  }

  function Number(ip: IpAddr): nat { if ip.V4? then ip.v4 else ip.v6 }
}
