/** The addresses of one CIDR, handed out through a bitmap of offsets. */
module HostScope {
  import opened Bytes
  import opened Net
  import opened Bitmap

  // ------------------------------------------------------------------ layout

  function HostBits(n: IpNet): nat { n.Bits() - n.PrefixLen() }

  /** The first address of the block. */
  function Network(n: IpNet): nat { RoundDown(n.Addr(), n.Block()) }

  /** `x` with what is left over after division by `m` cleared. */
  function RoundDown(x: nat, m: nat): (r: nat)
    requires m > 0
    ensures r <= x < r + m && r == x / m * m
  {
    x - x % m
  }

  /** How many addresses the allocator spans: none for the two shortest prefixes, and at
      most 2^16 for IPv6. */
  function Size(n: IpNet): nat
  {
    if (n.Net4? && HostBits(n) >= 31) || (n.Net6? && HostBits(n) >= 127) then 0
    else if n.Net6? && HostBits(n) >= 16 then 0x1_0000
    else n.Block()
  }

  /** Offset 0 stands for this number. */
  function Base(n: IpNet): nat { if Size(n) > 2 then Network(n) + 1 else Network(n) }

  function Max(n: IpNet): nat { if Size(n) > 2 then Size(n) - 2 else Size(n) }

  /** `contains`: the offset of an address, if it is one of the usable ones. */
  function OffsetOf(n: IpNet, ip: IpAddr): Option<nat>
  {
    if !n.Contains(ip) || Number(ip) < Base(n) then None
    else
      var offset := Number(ip) - Base(n);
      if offset < 0x1_0000_0000_0000_0000 && offset < Max(n) then Some(offset) else None
  }

  /** `offset_to_ip`, with the truncation to 32 bits written out. */
  function OffsetToIp(n: IpNet, offset: nat): IpAddr
    requires offset < Max(n)
  {
    FitsFamily(n);
    if n.Net4? then V4((Base(n) + offset) % 0x1_0000_0000) else V6(Base(n) + offset)
  }

  /** The number of addresses of the family. */
  function Whole(n: IpNet): nat { if n.Net4? then 0x1_0000_0000 else 0x1_0000_0000_0000_0000_0000_0000_0000_0000 }

  /** The block starts at a multiple of its size and ends inside the address family. */
  lemma BlockFits(n: IpNet)
    ensures Network(n) + n.Block() <= Whole(n)
  {
    PowValues();
    PowAdd(n.PrefixLen(), HostBits(n));
    LastMultiple(n.Addr(), n.Block(), Pow2(n.PrefixLen()));
  }

  lemma LastMultiple(x: nat, m: nat, count: nat)
    requires m > 0 && x < count * m
    ensures RoundDown(x, m) + m <= count * m
  {
    var d := count - x / m;
    assert d * m == count * m - RoundDown(x, m);
    AwayFromZero(d, m);
  }

  /** The usable range lies inside the block. */
  lemma UsableInBlock(n: IpNet)
    ensures Network(n) <= Base(n) && Base(n) + Max(n) <= Network(n) + n.Block()
  {
    PowValues();
    if n.Net6? && HostBits(n) >= 16 { PowGrows(16, HostBits(n)); }
  }

  /** Nothing overflows: every usable number fits the family. */
  lemma FitsFamily(n: IpNet)
    ensures Base(n) + Max(n) <= Whole(n)
  {
    BlockFits(n);
    UsableInBlock(n);
  }

  // ------------------------------------------------------------------ offsets and addresses

  /** A network contains exactly the addresses of its family from `Network` on, one block. */
  lemma ContainsIsRange(n: IpNet, ip: IpAddr)
    ensures n.Contains(ip) <==> n.SameFamily(ip) && Network(n) <= Number(ip) < Network(n) + n.Block()
  {
    SameQuotient(Number(ip), n.Addr(), n.Block());
  }

  lemma SameQuotient(x: nat, y: nat, m: nat)
    requires m > 0
    ensures x / m == y / m <==> RoundDown(y, m) <= x < RoundDown(y, m) + m
  {
    if RoundDown(y, m) <= x < RoundDown(y, m) + m {
      DivModUnique(x, m, y / m, x - RoundDown(y, m));
    }
    assert x / m == y / m ==> RoundDown(x, m) == RoundDown(y, m);
  }

  /** The two directions undo each other, for every CIDR, offset and address. */
  lemma OffsetsAndAddresses(n: IpNet, ip: IpAddr, offset: nat)
    ensures OffsetOf(n, ip) == Some(offset) <==> offset < Max(n) && OffsetToIp(n, offset) == ip
  {
    FitsFamily(n);
    UsableInBlock(n);
    ContainsIsRange(n, ip);
    hide Base, Max, Network, IpNet.Contains, IpNet.Block, Whole;
    assert Whole(n) == if n.Net4? then 0x1_0000_0000 else 0x1_0000_0000_0000_0000_0000_0000_0000_0000 by { WholeIs(n); }
    assert Max(n) <= 0x1_0000_0000 by { MaxFitsUsize(n); }
    if offset < Max(n) {
      DivModUnique(Base(n) + offset, Whole(n), 0, Base(n) + offset);
      assert Number(OffsetToIp(n, offset)) == Base(n) + offset;
    }
  }

  lemma WholeIs(n: IpNet)
    ensures Whole(n) == if n.Net4? then 0x1_0000_0000 else 0x1_0000_0000_0000_0000_0000_0000_0000_0000
  {
  }

  /** The count fits a `usize`. */
  lemma MaxFitsUsize(n: IpNet)
    ensures Max(n) <= 0x1_0000_0000
  {
    hide Pow2, Network, IpNet.Addr;
    PowValues();
    if HostBits(n) <= 32 { PowGrows(HostBits(n), 32); }
  }

  /** What `new` leaves usable, by prefix length: everything of one or two addresses, all
      but the first and last of larger blocks, 65534 addresses of large IPv6 blocks. */
  predicate Usable(n: IpNet, ip: IpAddr)
  {
    && n.Contains(ip)
    && if HostBits(n) <= 1 then true
       else if (n.Net4? && HostBits(n) >= 31) || (n.Net6? && HostBits(n) >= 127) then false
       else if n.Net4? || HostBits(n) < 16 then Network(n) < Number(ip) < Network(n) + n.Block() - 1
       else 1 <= Number(ip) - Network(n) <= 65534
  }

  lemma OffsetsAreUsable(n: IpNet, ip: IpAddr)
    ensures OffsetOf(n, ip).Some? <==> Usable(n, ip)
  {
    ContainsIsRange(n, ip);
    MaxFitsUsize(n);
    BlockSizes(n);
    hide IpNet.Contains, Network, IpNet.Block;
  }

  /** The same in numbers: for an IPv4 prefix all but the first and last address of its
      block, both of two, the one of one, and none of the two shortest prefixes. */
  lemma UsableSpelledOut(n: IpNet, x: u32)
    requires n.Net4?
    ensures var size := Pow2(32 - n.len4);
            var first := n.addr4 / size * size;
            Usable(n, V4(x)) <==>
            if n.len4 >= 31 then first <= x < first + size
            else 2 <= n.len4 && first < x < first + size - 1
  {
    ContainsIsRange(n, V4(x));
    assert n.Block() == Pow2(32 - n.len4);
    hide IpNet.Contains, RoundDown;
    RoundedDown(n.addr4, n.Block());
  }

  lemma RoundedDown(x: nat, m: nat)
    requires m > 0
    ensures RoundDown(x, m) == x / m * m
  {
  }

  /** And for IPv6, where a larger block offers 65534 addresses. */
  lemma UsableSpelledOut6(n: IpNet, x: u128)
    requires n.Net6?
    ensures var size := Pow2(128 - n.len6);
            var first := n.addr6 / size * size;
            Usable(n, V6(x)) <==>
            if n.len6 >= 127 then first <= x < first + size
            else if n.len6 > 112 then first < x < first + size - 1
            else 2 <= n.len6 && first < x < first + 65535
  {
    ContainsIsRange(n, V6(x));
    assert n.Block() == Pow2(128 - n.len6);
    hide IpNet.Contains, RoundDown;
    RoundedDown(n.addr6, n.Block());
    if n.len6 <= 112 {
      PowValues();
      PowGrows(16, 128 - n.len6);
    }
  }

  lemma BlockSizes(n: IpNet)
    ensures HostBits(n) == 0 ==> n.Block() == 1
    ensures HostBits(n) == 1 ==> n.Block() == 2
    ensures HostBits(n) >= 2 ==> n.Block() >= 4
  {
    assert Pow2(2) == 4;
    if HostBits(n) >= 2 { PowGrows(2, HostBits(n)); }
  }

  // ------------------------------------------------------------------ allocator

  datatype IpamError = Ipv4Disabled | Ipv6Disabled | Excluded(owner: string) | PoolRequired | PoolUndetermined
                     | RangeFull | AlreadyAllocated | NotInRange

  datatype Result<+T> = Ok(value: T) | Err(error: IpamError)

  /** The addresses with these offsets. */
  function Addresses(n: IpNet, offsets: set<nat>): set<IpAddr>
  {
    set o | o in offsets && o < Max(n) :: OffsetToIp(n, o)
  }

  function UsableIps(n: IpNet): set<IpAddr> { Addresses(n, Range(Max(n))) }

  lemma AddressIn(n: IpNet, offsets: set<nat>, ip: IpAddr)
    ensures ip in Addresses(n, offsets) <==> OffsetOf(n, ip).Some? && OffsetOf(n, ip).value in offsets
    ensures ip in UsableIps(n) <==> Usable(n, ip)
  {
    OffsetsAreUsable(n, ip);
    hide OffsetToIp, OffsetOf, Usable, Max;
    forall o: nat ensures OffsetOf(n, ip) == Some(o) <==> o < Max(n) && OffsetToIp(n, o) == ip {
      OffsetsAndAddresses(n, ip, o);
    }
  }

  class HostScopeAllocator {
    const net: IpNet
    const alloc: AllocationBitmap

    ghost predicate Valid()
      reads alloc
    {
      alloc.max == Max(net) && alloc.Valid()
    }

    /** The addresses handed out. */
    ghost function Allocated(): set<IpAddr>
      reads alloc
    {
      Addresses(net, alloc.Allocated())
    }

    /** The usable addresses nobody has. */
    ghost function Free(): set<IpAddr>
      reads alloc
    {
      UsableIps(net) - Allocated()
    }

    constructor (net: IpNet)
      ensures Valid() && fresh(alloc) && this.net == net && Allocated() == {}
    {
      this.net := net;
      alloc := new AllocationBitmap(Max(net));
    }

    /** `allocate`: a given address. */
    method Allocate(ip: IpAddr) returns (r: Result<IpAddr>)
      requires Valid()
      modifies alloc
      ensures Valid()
      ensures r == if !Usable(net, ip) then Err(NotInRange)
                   else if ip in old(Allocated()) then Err(AlreadyAllocated) else Ok(ip)
      ensures Allocated() == old(Allocated()) + if r.Ok? then {ip} else {}
    {
      hide Max, OffsetOf, Usable, Addresses, AllocationBitmap.Valid, AllocationBitmap.Allocated;
      AddressIn(net, alloc.Allocated(), ip);
      OffsetsAreUsable(net, ip);
      var offset := OffsetOf(net, ip);
      if offset.None? { return Err(NotInRange); }
      ghost var before := alloc.Allocated();
      var ok := alloc.Allocate(offset.value);
      if !ok {
        assert offset.value < Max(net) by { OffsetsAndAddresses(net, ip, offset.value); }
        return Err(AlreadyAllocated);
      }
      AddressesPlus(net, before, ip);
      r := Ok(ip);
    }

    /** `allocate_next`: any free address; fails only when there is none. */
    method AllocateNext() returns (r: Result<IpAddr>)
      requires Valid()
      modifies alloc
      ensures Valid()
      ensures r == Err(RangeFull) || (r.Ok? && Usable(net, r.value) && r.value !in old(Allocated()))
      ensures r.Err? <==> old(Allocated()) == UsableIps(net)
      ensures Allocated() == old(Allocated()) + if r.Ok? then {r.value} else {}
    {
      hide Max, OffsetOf, OffsetToIp, Usable, Addresses, AllocationBitmap.Valid, AllocationBitmap.Allocated;
      ghost var before := alloc.Allocated();
      var offset := alloc.AllocateNext();
      if offset.None? { return Err(RangeFull); }
      var ip := OffsetToIp(net, offset.value);
      OffsetsAndAddresses(net, ip, offset.value);
      AddressIn(net, before, ip);
      OffsetsAreUsable(net, ip);
      AddressesPlus(net, before, ip);
      r := Ok(ip);
    }

    /** `release`: an address that is not usable or not allocated is let pass. */
    method Release(ip: IpAddr)
      requires Valid()
      modifies alloc
      ensures Valid() && Allocated() == old(Allocated()) - {ip}
    {
      hide Max, OffsetOf, Usable, Addresses, AllocationBitmap.Valid, AllocationBitmap.Allocated;
      ghost var before := alloc.Allocated();
      AddressIn(net, before, ip);
      var offset := OffsetOf(net, ip);
      if offset.Some? {
        alloc.Release(offset.value);
        AddressesMinus(net, before, ip);
        assert offset.value < Max(net) by { OffsetsAndAddresses(net, ip, offset.value); }
      }
    }
  }

  lemma AddressesPlus(n: IpNet, offsets: set<nat>, ip: IpAddr)
    requires OffsetOf(n, ip).Some?
    ensures Addresses(n, offsets + {OffsetOf(n, ip).value}) == Addresses(n, offsets) + {ip}
  {
    hide Addresses, OffsetOf, Usable;
    forall a ensures a in Addresses(n, offsets + {OffsetOf(n, ip).value}) <==> a in Addresses(n, offsets) || a == ip {
      AddressIn(n, offsets, a);
      AddressIn(n, offsets + {OffsetOf(n, ip).value}, a);
      SameOffset(n, a, ip);
    }
  }

  lemma AddressesMinus(n: IpNet, offsets: set<nat>, ip: IpAddr)
    requires OffsetOf(n, ip).Some?
    ensures Addresses(n, offsets - {OffsetOf(n, ip).value}) == Addresses(n, offsets) - {ip}
  {
    hide Addresses, OffsetOf, Usable;
    forall a ensures a in Addresses(n, offsets - {OffsetOf(n, ip).value}) <==> a in Addresses(n, offsets) && a != ip {
      AddressIn(n, offsets, a);
      AddressIn(n, offsets - {OffsetOf(n, ip).value}, a);
      SameOffset(n, a, ip);
    }
  }

  lemma SameOffset(n: IpNet, a: IpAddr, b: IpAddr)
    requires OffsetOf(n, b).Some?
    ensures OffsetOf(n, a) == OffsetOf(n, b) <==> a == b
  {
    hide OffsetOf;
    OffsetsAndAddresses(n, a, OffsetOf(n, b).value);
    OffsetsAndAddresses(n, b, OffsetOf(n, b).value);
  }
}
