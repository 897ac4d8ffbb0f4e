/** Ethernet/IPv4 frames: parsing, and the in-place NAT rewrite with both checksums. */
module Frame {
  import opened Bytes
  import opened Checksum
  import opened Net

  const ETH_HDR_LEN := 14
  const ETHERTYPE_IPV4 := 0x0800
  const IP_TOTAL_LEN := ETH_HDR_LEN + 2
  const IP_PROTOCOL := ETH_HDR_LEN + 9
  const IP_CSUM := ETH_HDR_LEN + 10
  const IP_SRC := ETH_HDR_LEN + 12
  const IP_DST := ETH_HDR_LEN + 16
  const PROTO_TCP: byte := 6
  const PROTO_UDP: byte := 17

  datatype Ipv4Info = Ipv4Info(ihl: nat, protocol: byte, src: u32, dst: u32)

  function AddrAt(f: seq<byte>, off: nat): u32
    requires off + 4 <= |f|
  {
    BE32(f[off], f[off + 1], f[off + 2], f[off + 3])
  }

  function ParseIpv4(f: seq<byte>): Option<Ipv4Info>
  {
    if |f| < ETH_HDR_LEN + 20 then None
    else if BE16(f[12], f[13]) != ETHERTYPE_IPV4 then None
    else if Nibbles(f[ETH_HDR_LEN]).0 != 4 then None
    else
      var ihl := 4 * Nibbles(f[ETH_HDR_LEN]).1;
      if |f| - ETH_HDR_LEN < ihl then None
      else Some(Ipv4Info(ihl, f[IP_PROTOCOL], AddrAt(f, IP_SRC), AddrAt(f, IP_DST)))
  }

  function ParsePorts(f: seq<byte>, l4: nat): Option<(u16, u16)>
  {
    if |f| < l4 + 4 then None
    else Some((BE16(f[l4], f[l4 + 1]), BE16(f[l4 + 2], f[l4 + 3])))
  }

  function ProtoFromByte(b: byte): Option<IpProto>
  {
    if b == 1 then Some(Icmp) else if b == PROTO_TCP then Some(Tcp) else if b == PROTO_UDP then Some(Udp) else None
  }

  predicate HasPorts(protocol: byte) { protocol == PROTO_TCP || protocol == PROTO_UDP }

  /** The fields a rewrite sets; `None` leaves a field as it is. */
  datatype Rewrite = Rewrite(srcAddr: Option<u32>, dstAddr: Option<u32>, srcPort: Option<u16>, dstPort: Option<u16>)

  function PutAddr(f: seq<byte>, off: nat, addr: Option<u32>): (g: seq<byte>)
    requires off + 4 <= |f|
    ensures |g| == |f|
  {
    if addr.None? then f else Splice(f, off, ToBE32(addr.value))
  }

  function PutPort(f: seq<byte>, off: nat, port: Option<u16>): (g: seq<byte>)
    requires port.Some? ==> off + 2 <= |f|
    ensures |g| == |f|
  {
    if port.None? then f else Splice(f, off, ToBE16(port.value))
  }

  function WithAddresses(f: seq<byte>, r: Rewrite): (g: seq<byte>)
    requires ETH_HDR_LEN + 20 <= |f|
    ensures |g| == |f|
  {
    PutAddr(PutAddr(f, IP_SRC, r.srcAddr), IP_DST, r.dstAddr)
  }

  ghost function WithIpChecksum(f: seq<byte>, ihl: nat): (g: seq<byte>)
    requires IP_CSUM + 2 <= |f| && ETH_HDR_LEN + ihl <= |f|
    ensures |g| == |f|
  {
    Filled(f, [], ETH_HDR_LEN, IP_CSUM, ETH_HDR_LEN + ihl, false)
  }

  predicate PortsInBounds(f: seq<byte>, l4: nat, r: Rewrite)
  {
    (r.srcPort.Some? ==> l4 + 2 <= |f|) && (r.dstPort.Some? ==> l4 + 4 <= |f|)
  }

  function WithPorts(f: seq<byte>, l4: nat, protocol: byte, r: Rewrite): (g: seq<byte>)
    requires HasPorts(protocol) ==> PortsInBounds(f, l4, r)
    ensures |g| == |f|
  {
    if HasPorts(protocol) then PutPort(PutPort(f, l4, r.srcPort), l4 + 2, r.dstPort) else f
  }

  function TotalLen(f: seq<byte>): u16
    requires ETH_HDR_LEN + 20 <= |f|
  {
    BE16(f[IP_TOTAL_LEN], f[IP_TOTAL_LEN + 1])
  }

  /** The frame holds the whole datagram its header announces; otherwise the L4
      checksum is left alone. */
  predicate SegmentInside(f: seq<byte>, ihl: nat)
    requires ETH_HDR_LEN + 20 <= |f|
  {
    ihl <= TotalLen(f) && ETH_HDR_LEN + TotalLen(f) <= |f|
  }

  function CsumOffset(protocol: byte): nat { if protocol == PROTO_TCP then 16 else 6 }

  predicate CsumInBounds(f: seq<byte>, ihl: nat, protocol: byte)
    requires ETH_HDR_LEN + 20 <= |f|
  {
    HasPorts(protocol) && SegmentInside(f, ihl) ==> ETH_HDR_LEN + ihl + CsumOffset(protocol) + 2 <= |f|
  }

  /** RFC 9293 section 3.1: the prefix the L4 checksum also covers. */
  function PseudoHeader(f: seq<byte>, protocol: byte, l4Len: u16): (p: seq<byte>)
    requires ETH_HDR_LEN + 20 <= |f|
    ensures |p| == 12
  {
    f[IP_SRC..IP_DST + 4] + [0, protocol] + ToBE16(l4Len)
  }

  /** RFC 768: over UDP a computed zero is sent as all ones. */
  ghost function WithL4Checksum(f: seq<byte>, ihl: nat, protocol: byte): (g: seq<byte>)
    requires ETH_HDR_LEN + 20 <= |f| && CsumInBounds(f, ihl, protocol)
    ensures |g| == |f|
  {
    if !SegmentInside(f, ihl) || !HasPorts(protocol) then f
    else
      var l4 := ETH_HDR_LEN + ihl;
      Filled(f, PseudoHeader(f, protocol, TotalLen(f) - ihl), l4, l4 + CsumOffset(protocol),
             ETH_HDR_LEN + TotalLen(f), protocol == PROTO_UDP)
  }

  ghost function BeforeL4Checksum(f: seq<byte>, ihl: nat, r: Rewrite): (g: seq<byte>)
    requires ETH_HDR_LEN + 20 <= |f| && ETH_HDR_LEN + ihl <= |f|
    requires HasPorts(f[IP_PROTOCOL]) ==> PortsInBounds(f, ETH_HDR_LEN + ihl, r)
    ensures |g| == |f|
  {
    WithPorts(WithIpChecksum(WithAddresses(f, r), ihl), ETH_HDR_LEN + ihl, f[IP_PROTOCOL], r)
  }

  /** The rewrite performs no out-of-range access: see `AttemptIff`, and `InBoundsIff` for
      the same condition on the octets received. */
  ghost predicate InBounds(f: seq<byte>, ihl: nat, r: Rewrite)
  {
    && ETH_HDR_LEN + 20 <= |f| && ETH_HDR_LEN + ihl <= |f|
    && (HasPorts(f[IP_PROTOCOL]) ==> PortsInBounds(f, ETH_HDR_LEN + ihl, r))
    && CsumInBounds(BeforeL4Checksum(f, ihl, r), ihl, f[IP_PROTOCOL])
  }

  /** What `rewrite_ipv4` leaves in the frame. */
  ghost function Rewritten(f: seq<byte>, ihl: nat, r: Rewrite): (g: seq<byte>)
    requires InBounds(f, ihl, r)
    ensures |g| == |f|
  {
    WithL4Checksum(BeforeL4Checksum(f, ihl, r), ihl, f[IP_PROTOCOL])
  }

  // ------------------------------------------------------------------ every access checked

  function TryPut(f: seq<byte>, off: nat, b: seq<byte>): Option<seq<byte>>
  {
    if off + |b| <= |f| then Some(Splice(f, off, b)) else None
  }

  function TryPutAddr(f: seq<byte>, off: nat, addr: Option<u32>): Option<seq<byte>>
  {
    if addr.None? then Some(f) else TryPut(f, off, ToBE32(addr.value))
  }

  function TryPutPort(f: seq<byte>, off: nat, port: Option<u16>): Option<seq<byte>>
  {
    if port.None? then Some(f) else TryPut(f, off, ToBE16(port.value))
  }

  function TryAddresses(f: seq<byte>, r: Rewrite): Option<seq<byte>>
  {
    match TryPutAddr(f, IP_SRC, r.srcAddr)
    case None => None
    case Some(g) => TryPutAddr(g, IP_DST, r.dstAddr)
  }

  /** Two octets cleared one by one, a slice read, two octets written. */
  ghost function TryIpChecksum(f: seq<byte>, ihl: nat): Option<seq<byte>>
  {
    if IP_CSUM + 2 <= |f| && ETH_HDR_LEN + ihl <= |f| then Some(WithIpChecksum(f, ihl)) else None
  }

  function TryPorts(f: seq<byte>, l4: nat, protocol: byte, r: Rewrite): Option<seq<byte>>
  {
    if !HasPorts(protocol) then Some(f)
    else
      match TryPutPort(f, l4, r.srcPort)
      case None => None
      case Some(g) => TryPutPort(g, l4 + 2, r.dstPort)
  }

  /** The total length read, the early return, the pseudo-header's slices, and then the
      protocol's own checksum field. */
  ghost function TryL4Checksum(f: seq<byte>, ihl: nat, protocol: byte): Option<seq<byte>>
  {
    if |f| < IP_TOTAL_LEN + 2 then None
    else
      var totalLen := BE16(f[IP_TOTAL_LEN], f[IP_TOTAL_LEN + 1]);
      if totalLen < ihl || ETH_HDR_LEN + totalLen > |f| then Some(f)
      else if |f| < IP_DST + 4 then None
      else if !HasPorts(protocol) then Some(f)
      else if ETH_HDR_LEN + ihl + CsumOffset(protocol) + 2 > |f| then None
      else Some(WithL4Checksum(f, ihl, protocol))
  }

  /** `rewrite_ipv4` access by access; `None` is the panic of the first one out of range. */
  ghost function Attempt(f: seq<byte>, ihl: nat, r: Rewrite): Option<seq<byte>>
  {
    match TryAddresses(f, r)
    case None => None
    case Some(f1) =>
      match TryIpChecksum(f1, ihl)
      case None => None
      case Some(f2) =>
        var protocol := f2[IP_PROTOCOL];
        match TryPorts(f2, ETH_HDR_LEN + ihl, protocol, r)
        case None => None
        case Some(f3) => TryL4Checksum(f3, ihl, protocol)
  }

  /** On a frame as long as every parsed frame is, the rewrite goes through exactly when
      it is in bounds, and then leaves exactly the rewritten frame. */
  lemma AttemptIff(f: seq<byte>, ihl: nat, r: Rewrite)
    requires ETH_HDR_LEN + 20 <= |f|
    ensures Attempt(f, ihl, r) == if InBounds(f, ihl, r) then Some(Rewritten(f, ihl, r)) else None
  {
    AddressStage(f, r);
    hide ToBE32, ToBE16, BE16, Splice, Filled;
    assert TryAddresses(f, r) == Some(WithAddresses(f, r));
    if ETH_HDR_LEN + ihl <= |f| {
      var f2 := WithIpChecksum(WithAddresses(f, r), ihl);
      assert f2[IP_PROTOCOL] == f[IP_PROTOCOL];
      AttemptPorts(f2, ETH_HDR_LEN + ihl, f[IP_PROTOCOL], r);
      hide WithAddresses, WithIpChecksum, WithPorts, TryPorts, TryAddresses, TryL4Checksum, WithL4Checksum,
        CsumInBounds;
      if HasPorts(f[IP_PROTOCOL]) ==> PortsInBounds(f, ETH_HDR_LEN + ihl, r) {
        AttemptL4(WithPorts(f2, ETH_HDR_LEN + ihl, f[IP_PROTOCOL], r), ihl, f[IP_PROTOCOL]);
      }
    }
  }

  lemma AttemptL4(f: seq<byte>, ihl: nat, protocol: byte)
    requires ETH_HDR_LEN + 20 <= |f|
    ensures TryL4Checksum(f, ihl, protocol)
            == if CsumInBounds(f, ihl, protocol) then Some(WithL4Checksum(f, ihl, protocol)) else None
  {
    hide BE16, Filled;
  }

  lemma AttemptPorts(f: seq<byte>, l4: nat, protocol: byte, r: Rewrite)
    ensures TryPorts(f, l4, protocol, r)
            == if HasPorts(protocol) ==> PortsInBounds(f, l4, r) then Some(WithPorts(f, l4, protocol, r)) else None
  {
    hide ToBE16, Splice;
  }

  /** The total length the checksum step will see: with a header length of 0 the
      destination port is written over it. */
  function FinalTotalLen(f: seq<byte>, ihl: nat, r: Rewrite): u16
    requires ETH_HDR_LEN + 20 <= |f|
  {
    if ihl == 0 && HasPorts(f[IP_PROTOCOL]) && r.dstPort.Some? then r.dstPort.value else TotalLen(f)
  }

  /** In bounds, said of the octets received. */
  predicate RewriteFits(f: seq<byte>, ihl: nat, r: Rewrite)
    requires ETH_HDR_LEN + 20 <= |f|
  {
    var l4, total := ETH_HDR_LEN + ihl, FinalTotalLen(f, ihl, r);
    && l4 <= |f|
    && (HasPorts(f[IP_PROTOCOL]) ==>
          && PortsInBounds(f, l4, r)
          && (ihl <= total && ETH_HDR_LEN + total <= |f| ==> l4 + CsumOffset(f[IP_PROTOCOL]) + 2 <= |f|))
  }

  /** For every header length a frame can announce. */
  lemma InBoundsIff(f: seq<byte>, ihl: nat, r: Rewrite)
    requires ETH_HDR_LEN + 20 <= |f| && ihl % 4 == 0
    ensures InBounds(f, ihl, r) <==> RewriteFits(f, ihl, r)
    ensures ihl >= 20 ==>
              (RewriteFits(f, ihl, r) <==>
               && ETH_HDR_LEN + ihl <= |f|
               && (HasPorts(f[IP_PROTOCOL]) ==> PortsInBounds(f, ETH_HDR_LEN + ihl, r))
               && CsumInBounds(f, ihl, f[IP_PROTOCOL]))
  {
    var l4 := ETH_HDR_LEN + ihl;
    if l4 <= |f| && (HasPorts(f[IP_PROTOCOL]) ==> PortsInBounds(f, l4, r)) {
      TotalLenAfter(f, ihl, r);
      hide BeforeL4Checksum, BE16;
    }
  }

  lemma TotalLenAfter(f: seq<byte>, ihl: nat, r: Rewrite)
    requires ETH_HDR_LEN + 20 <= |f| && ETH_HDR_LEN + ihl <= |f| && ihl % 4 == 0
    requires HasPorts(f[IP_PROTOCOL]) ==> PortsInBounds(f, ETH_HDR_LEN + ihl, r)
    ensures TotalLen(BeforeL4Checksum(f, ihl, r)) == FinalTotalLen(f, ihl, r)
  {
    AddressStage(f, r);
    hide WithAddresses, ToBE32;
    var f2, l4 := WithIpChecksum(WithAddresses(f, r), ihl), ETH_HDR_LEN + ihl;
    assert f2[IP_TOTAL_LEN] == f[IP_TOTAL_LEN] && f2[IP_TOTAL_LEN + 1] == f[IP_TOTAL_LEN + 1];
    hide WithIpChecksum;
  }

  /** An IPv4 TCP or UDP frame whose datagram and L4 header are complete. */
  predicate WellFormed(f: seq<byte>)
  {
    && ParseIpv4(f).Some?
    && var info := ParseIpv4(f).value;
       && 20 <= info.ihl
       && ETH_HDR_LEN + TotalLen(f) <= |f|
       && HasPorts(info.protocol)
       && info.ihl + (if info.protocol == PROTO_TCP then 20 else 8) <= TotalLen(f)
  }

  /** The IP header passes the RFC 1071 check. */
  ghost predicate HeaderVerifies(f: seq<byte>, ihl: nat)
    requires ETH_HDR_LEN + ihl <= |f|
  {
    Verifies(f[ETH_HDR_LEN..ETH_HDR_LEN + ihl])
  }

  /** Pseudo-header and segment together pass the RFC 1071 check. */
  ghost predicate SegmentVerifies(f: seq<byte>, ihl: nat, protocol: byte)
    requires ETH_HDR_LEN + 20 <= |f| && SegmentInside(f, ihl)
  {
    Verifies(PseudoHeader(f, protocol, TotalLen(f) - ihl) + f[ETH_HDR_LEN + ihl..ETH_HDR_LEN + TotalLen(f)])
  }

  /** Offsets a rewrite of TCP or UDP may change: both addresses, both ports and
      the two checksums. */
  predicate Rewritable(i: nat, ihl: nat, protocol: byte)
  {
    var l4 := ETH_HDR_LEN + ihl;
    || IP_CSUM <= i < IP_DST + 4
    || l4 <= i < l4 + 4
    || l4 + CsumOffset(protocol) <= i < l4 + CsumOffset(protocol) + 2
  }

  function Or<T>(o: Option<T>, t: T): T { if o.Some? then o.value else t }

  lemma IpChecksumStage(f: seq<byte>, ihl: nat)
    requires 20 <= ihl && ETH_HDR_LEN + ihl <= |f|
    ensures HeaderVerifies(WithIpChecksum(f, ihl), ihl)
  {
    FilledVerifies(f, [], ETH_HDR_LEN, IP_CSUM, ETH_HDR_LEN + ihl, false);
    var header := WithIpChecksum(f, ihl)[ETH_HDR_LEN..ETH_HDR_LEN + ihl];
    assert [] + header == header;
  }

  lemma L4ChecksumStage(f: seq<byte>, ihl: nat, protocol: byte)
    requires 20 <= ihl && ETH_HDR_LEN + 20 <= |f| && SegmentInside(f, ihl) && HasPorts(protocol)
    requires ihl + CsumOffset(protocol) + 2 <= TotalLen(f)
    ensures var g := WithL4Checksum(f, ihl, protocol);
            var at := ETH_HDR_LEN + ihl + CsumOffset(protocol);
            && TotalLen(g) == TotalLen(f)
            && SegmentVerifies(g, ihl, protocol)
            && (protocol == PROTO_UDP ==> BE16(g[at], g[at + 1]) != 0)
  {
    hide Filled, Verifies, PseudoHeader, BE16, TotalLen, CsumOffset;
    var total, off := TotalLen(f), CsumOffset(protocol);
    var g := WithL4Checksum(f, ihl, protocol);
    assert g == Filled(f, PseudoHeader(f, protocol, total - ihl), ETH_HDR_LEN + ihl, ETH_HDR_LEN + ihl + off,
                       ETH_HDR_LEN + total, protocol == PROTO_UDP);
    hide WithL4Checksum;
    EvenOffset(protocol);
    FilledSegment(f, g, ihl, protocol, total, off);
  }

  lemma EvenOffset(protocol: byte)
    ensures CsumOffset(protocol) % 2 == 0
  {
  }

  lemma FilledSegment(f: seq<byte>, g: seq<byte>, ihl: nat, protocol: byte, total: u16, off: nat)
    requires 34 <= |f| && 20 <= ihl && ihl + off + 2 <= total && 14 + total <= |f| && off % 2 == 0
    requires g == Filled(f, PseudoHeader(f, protocol, total - ihl), 14 + ihl, 14 + ihl + off, 14 + total,
                         protocol == PROTO_UDP)
    ensures TotalLen(g) == TotalLen(f)
    ensures Verifies(PseudoHeader(g, protocol, total - ihl) + g[14 + ihl..14 + total])
    ensures protocol == PROTO_UDP ==> BE16(g[14 + ihl + off], g[14 + ihl + off + 1]) != 0
  {
    var pseudo := PseudoHeader(f, protocol, total - ihl);
    hide Filled, Verifies, PseudoHeader, BE16, TotalLen;
    SamePseudo(f, g, protocol, total - ihl);
    FilledVerifies(f, pseudo, 14 + ihl, 14 + ihl + off, 14 + total, protocol == PROTO_UDP);
    FilledNonzero(f, pseudo, 14 + ihl, 14 + ihl + off, 14 + total);
  }

  lemma SamePseudo(f: seq<byte>, g: seq<byte>, protocol: byte, len: u16)
    requires 34 <= |f| == |g| && forall i :: 0 <= i < 34 ==> g[i] == f[i]
    ensures PseudoHeader(g, protocol, len) == PseudoHeader(f, protocol, len) && TotalLen(g) == TotalLen(f)
  {
    assert g[IP_SRC..IP_DST + 4] == f[IP_SRC..IP_DST + 4];
  }

  lemma L4ChecksumAfterHeader(f: seq<byte>, ihl: nat, protocol: byte)
    requires ETH_HDR_LEN + 20 <= |f| && ETH_HDR_LEN + ihl <= |f| && CsumInBounds(f, ihl, protocol)
    ensures WithL4Checksum(f, ihl, protocol)[..ETH_HDR_LEN + ihl] == f[..ETH_HDR_LEN + ihl]
    ensures WithL4Checksum(f, ihl, protocol)[ETH_HDR_LEN..ETH_HDR_LEN + ihl] == f[ETH_HDR_LEN..ETH_HDR_LEN + ihl]
  {
  }

  lemma AddressStage(f: seq<byte>, r: Rewrite)
    requires ETH_HDR_LEN + 20 <= |f|
    ensures var g := WithAddresses(f, r);
            && AddrAt(g, IP_SRC) == Or(r.srcAddr, AddrAt(f, IP_SRC))
            && AddrAt(g, IP_DST) == Or(r.dstAddr, AddrAt(f, IP_DST))
            && forall i :: 0 <= i < |f| && !(IP_SRC <= i < IP_DST + 4) ==> g[i] == f[i]
  {
  }

  lemma PortStage(f: seq<byte>, l4: nat, protocol: byte, r: Rewrite)
    requires HasPorts(protocol) && l4 + 4 <= |f|
    ensures var g := WithPorts(f, l4, protocol, r);
            && BE16(g[l4], g[l4 + 1]) == Or(r.srcPort, BE16(f[l4], f[l4 + 1]))
            && BE16(g[l4 + 2], g[l4 + 3]) == Or(r.dstPort, BE16(f[l4 + 2], f[l4 + 3]))
            && forall i :: 0 <= i < |f| && !(l4 <= i < l4 + 4) ==> g[i] == f[i]
  {
  }

  /** Parsing looks at the headers and the ports only. */
  lemma ParseDependsOn(f: seq<byte>, g: seq<byte>, l4: nat)
    requires |f| == |g| && ETH_HDR_LEN + 20 <= l4 && l4 + 4 <= |f|
    requires forall i :: 0 <= i < l4 + 4 ==> f[i] == g[i]
    ensures ParseIpv4(f) == ParseIpv4(g) && ParsePorts(f, l4) == ParsePorts(g, l4)
    ensures f[ETH_HDR_LEN..l4] == g[ETH_HDR_LEN..l4]
  {
  }

  predicate SameExcept(f: seq<byte>, g: seq<byte>, ihl: nat)
    requires |f| == |g|
  {
    var l4 := ETH_HDR_LEN + ihl;
    forall i :: 0 <= i < |f| && !(IP_CSUM <= i < IP_DST + 4) && !(l4 <= i < l4 + 4) ==> g[i] == f[i]
  }

  /** Everything but the L4 checksum: the fields written, and what did not move. */
  lemma BeforeL4Fields(f: seq<byte>, ihl: nat, r: Rewrite)
    requires 20 <= ihl && ETH_HDR_LEN + ihl + 4 <= |f| && HasPorts(f[IP_PROTOCOL])
    ensures var l4 := ETH_HDR_LEN + ihl;
            var g := BeforeL4Checksum(f, ihl, r);
            && AddrAt(g, IP_SRC) == Or(r.srcAddr, AddrAt(f, IP_SRC))
            && AddrAt(g, IP_DST) == Or(r.dstAddr, AddrAt(f, IP_DST))
            && BE16(g[l4], g[l4 + 1]) == Or(r.srcPort, BE16(f[l4], f[l4 + 1]))
            && BE16(g[l4 + 2], g[l4 + 3]) == Or(r.dstPort, BE16(f[l4 + 2], f[l4 + 3]))
            && SameExcept(f, g, ihl)
  {
    AddressStage(f, r);
    var f2 := WithIpChecksum(WithAddresses(f, r), ihl);
    PortStage(f2, ETH_HDR_LEN + ihl, f[IP_PROTOCOL], r);
  }

  lemma BeforeL4Verifies(f: seq<byte>, ihl: nat, r: Rewrite)
    requires 20 <= ihl && ETH_HDR_LEN + ihl + 4 <= |f| && HasPorts(f[IP_PROTOCOL])
    ensures HeaderVerifies(BeforeL4Checksum(f, ihl, r), ihl)
  {
    var l4 := ETH_HDR_LEN + ihl;
    var f2 := WithIpChecksum(WithAddresses(f, r), ihl);
    IpChecksumStage(WithAddresses(f, r), ihl);
    PortStage(f2, l4, f[IP_PROTOCOL], r);
    assert WithPorts(f2, l4, f[IP_PROTOCOL], r)[ETH_HDR_LEN..l4] == f2[ETH_HDR_LEN..l4];
  }

  /** The frame before its L4 checksum is filled parses to what was asked for. */
  lemma BeforeL4Parses(f: seq<byte>, r: Rewrite)
    requires WellFormed(f)
    ensures var info := ParseIpv4(f).value;
            var l4 := ETH_HDR_LEN + info.ihl;
            && InBounds(f, info.ihl, r)
            && var h := BeforeL4Checksum(f, info.ihl, r);
               && WellFormed(h)
               && ParseIpv4(h) == Some(info.(src := Or(r.srcAddr, info.src), dst := Or(r.dstAddr, info.dst)))
               && ParsePorts(h, l4)
                  == Some((Or(r.srcPort, ParsePorts(f, l4).value.0), Or(r.dstPort, ParsePorts(f, l4).value.1)))
               && SameExcept(f, h, info.ihl)
  {
    var info := ParseIpv4(f).value;
    BeforeL4Fields(f, info.ihl, r);
    hide BeforeL4Checksum;
  }

  /** Filling the L4 checksum changes its two octets and nothing that is parsed. */
  lemma L4ChecksumKeeps(h: seq<byte>, ihl: nat, protocol: byte)
    requires WellFormed(h) && ParseIpv4(h).value.ihl == ihl && ParseIpv4(h).value.protocol == protocol
    requires CsumInBounds(h, ihl, protocol)
    ensures var g, at := WithL4Checksum(h, ihl, protocol), ETH_HDR_LEN + ihl + CsumOffset(protocol);
            && WellFormed(g) && ParseIpv4(g) == ParseIpv4(h)
            && ParsePorts(g, ETH_HDR_LEN + ihl) == ParsePorts(h, ETH_HDR_LEN + ihl)
            && forall i :: 0 <= i < |h| && !(at <= i < at + 2) ==> g[i] == h[i]
  {
    ParseDependsOn(h, WithL4Checksum(h, ihl, protocol), ETH_HDR_LEN + ihl);
  }

  /** On a well-formed frame the rewrite stays in bounds, re-parsing yields the
      requested addresses and ports, and nothing but those fields and the two
      checksums changed. */
  lemma RewriteReparses(f: seq<byte>, r: Rewrite)
    requires WellFormed(f)
    ensures var info := ParseIpv4(f).value;
            var l4 := ETH_HDR_LEN + info.ihl;
            && InBounds(f, info.ihl, r)
            && var g := Rewritten(f, info.ihl, r);
               && WellFormed(g)
               && ParseIpv4(g) == Some(info.(src := Or(r.srcAddr, info.src), dst := Or(r.dstAddr, info.dst)))
               && ParsePorts(g, l4)
                  == Some((Or(r.srcPort, ParsePorts(f, l4).value.0), Or(r.dstPort, ParsePorts(f, l4).value.1)))
               && forall i :: 0 <= i < |f| && !Rewritable(i, info.ihl, info.protocol) ==> g[i] == f[i]
  {
    var info := ParseIpv4(f).value;
    var h := BeforeL4Checksum(f, info.ihl, r);
    BeforeL4Parses(f, r);
    L4ChecksumKeeps(h, info.ihl, info.protocol);
    hide BeforeL4Checksum, WithL4Checksum, ParseIpv4, ParsePorts;
  }

  lemma HeaderVerifiesAfter(f: seq<byte>, ihl: nat, r: Rewrite)
    requires 20 <= ihl && ETH_HDR_LEN + ihl + 4 <= |f| && HasPorts(f[IP_PROTOCOL])
    requires InBounds(f, ihl, r)
    ensures HeaderVerifies(Rewritten(f, ihl, r), ihl)
  {
    BeforeL4Verifies(f, ihl, r);
    L4ChecksumAfterHeader(BeforeL4Checksum(f, ihl, r), ihl, f[IP_PROTOCOL]);
  }

  /** On a well-formed frame the header of the result passes the receiver's check. */
  lemma RewriteHeaderVerifies(f: seq<byte>, r: Rewrite)
    requires WellFormed(f)
    ensures var info := ParseIpv4(f).value;
            InBounds(f, info.ihl, r) && HeaderVerifies(Rewritten(f, info.ihl, r), info.ihl)
  {
    RewriteReparses(f, r);
    HeaderVerifiesAfter(f, ParseIpv4(f).value.ihl, r);
  }

  /** On a well-formed frame the segment of the result passes the receiver's check,
      and over UDP the transmitted checksum is not the "none" value 0. */
  lemma RewriteSegmentVerifies(f: seq<byte>, r: Rewrite)
    requires WellFormed(f)
    ensures var info := ParseIpv4(f).value;
            var l4 := ETH_HDR_LEN + info.ihl;
            && InBounds(f, info.ihl, r)
            && var g := Rewritten(f, info.ihl, r);
               && SegmentInside(g, info.ihl)
               && SegmentVerifies(g, info.ihl, info.protocol)
               && (info.protocol == PROTO_UDP ==> BE16(g[l4 + 6], g[l4 + 7]) != 0)
  {
    hide WithAddresses, WithPorts, WithIpChecksum, BE32, Nibbles, PseudoHeader;
    var info := ParseIpv4(f).value;
    var h := BeforeL4Checksum(f, info.ihl, r);
    BeforeL4Fields(f, info.ihl, r);
    L4ChecksumStage(h, info.ihl, info.protocol);
  }

  // ------------------------------------------------------------------ said in octets

  /** Which frames are parsed, and what is read from them. */
  lemma ParsedOctets(f: seq<byte>)
    ensures ParseIpv4(f).Some? <==>
            34 <= |f| && f[12] == 8 && f[13] == 0 && 64 <= f[14] < 80 && 14 + 4 * (f[14] as int - 64) <= |f|
    ensures ParseIpv4(f).Some? ==>
              ParseIpv4(f).value == Ipv4Info(4 * (f[14] as int - 64), f[23], Octets(f, 26), Octets(f, 30))
  {
    if 34 <= |f| { var n := Nibbles(f[14]); }
  }

  /** Four octets as a number, the first the most significant. */
  function Octets(f: seq<byte>, off: nat): u32
    requires off + 4 <= |f|
  {
    0x100_0000 * f[off] as int + 0x1_0000 * f[off + 1] as int + 0x100 * f[off + 2] as int + f[off + 3] as int
  }

  /** Two octets as a number. */
  function Word(f: seq<byte>, off: nat): u16
    requires off + 2 <= |f|
  {
    0x100 * f[off] as int + f[off + 1] as int
  }

  /** The frame holds a whole IPv4 datagram of TCP or UDP with the whole of its header. */
  predicate Complete(f: seq<byte>)
  {
    && 34 <= |f| && f[12] == 8 && f[13] == 0 && 69 <= f[14] < 80 && (f[23] == 6 || f[23] == 17)
    && 14 + Word(f, 16) <= |f|
    && 4 * (f[14] as int - 64) + (if f[23] == 6 then 20 else 8) <= Word(f, 16)
  }

  lemma CompleteIff(f: seq<byte>)
    ensures WellFormed(f) <==> Complete(f)
    ensures Complete(f) ==>
              && ParseIpv4(f).Some?
              && ParseIpv4(f).value.ihl == 4 * (f[14] as int - 64) && ParseIpv4(f).value.protocol == f[23]
              && TotalLen(f) == Word(f, 16)
  {
    ParsedOctets(f);
    hide ParseIpv4;
  }

  function Set<T>(o: Option<T>, before: T): T { if o.Some? then o.value else before }

  /** Where the segment's checksum is. */
  function ChecksumAt(f: seq<byte>): nat
    requires Complete(f)
  {
    14 + 4 * (f[14] as int - 64) + if f[23] == 6 then 16 else 6
  }

  /** The fields are set, and only they, the header checksum and the segment checksum have
      changed: TCP's at octets 16 and 17 of the segment, UDP's at 6 and 7. */
  predicate OnlySet(f: seq<byte>, g: seq<byte>, r: Rewrite)
    requires Complete(f) && |g| == |f|
  {
    var l4, at := 14 + 4 * (f[14] as int - 64), ChecksumAt(f);
    && Octets(g, 26) == Set(r.srcAddr, Octets(f, 26)) && Octets(g, 30) == Set(r.dstAddr, Octets(f, 30))
    && Word(g, l4) == Set(r.srcPort, Word(f, l4)) && Word(g, l4 + 2) == Set(r.dstPort, Word(f, l4 + 2))
    && forall i | 0 <= i < |f| && !(24 <= i < 34) && !(l4 <= i < l4 + 4) && !(at <= i < at + 2) :: g[i] == f[i]
  }

  /** Every rewrite of such a frame stays inside it and does just that. */
  lemma RewriteOctets(f: seq<byte>, r: Rewrite)
    requires Complete(f)
    ensures var ihl := 4 * (f[14] as int - 64);
            InBounds(f, ihl, r) && Complete(Rewritten(f, ihl, r)) && OnlySet(f, Rewritten(f, ihl, r), r)
  {
    hide Rewritten, InBounds, WellFormed, ParseIpv4, ParsePorts, Rewritable, OnlySet, Octets, Word;
    CompleteIff(f);
    RewriteReparses(f, r);
    var g := Rewritten(f, 4 * (f[14] as int - 64), r);
    CompleteIff(g);
    hide Complete;
    SetOctets(f, g, r);
  }

  lemma SetOctets(f: seq<byte>, g: seq<byte>, r: Rewrite)
    requires Complete(f) && |g| == |f| && ParseIpv4(f).Some? && ParseIpv4(g).Some?
    requires ParseIpv4(g).value.src == Or(r.srcAddr, ParseIpv4(f).value.src)
    requires ParseIpv4(g).value.dst == Or(r.dstAddr, ParseIpv4(f).value.dst)
    requires var l4 := 14 + 4 * (f[14] as int - 64);
             && l4 + 4 <= |f|
             && ParsePorts(g, l4)
                == Some((Or(r.srcPort, ParsePorts(f, l4).value.0), Or(r.dstPort, ParsePorts(f, l4).value.1)))
    requires forall i :: 0 <= i < |f| && !Rewritable(i, 4 * (f[14] as int - 64), f[23]) ==> g[i] == f[i]
    ensures OnlySet(f, g, r)
  {
    ParsedOctets(f);
    ParsedOctets(g);
    hide ParseIpv4;
    var ihl := 4 * (f[14] as int - 64);
    PortOctets(f, 14 + ihl);
    PortOctets(g, 14 + ihl);
    RewritableOctets(ihl, f[23]);
    hide ParsePorts, Rewritable, Octets, Word;
  }

  lemma PortOctets(f: seq<byte>, l4: nat)
    requires l4 + 4 <= |f|
    ensures ParsePorts(f, l4) == Some((Word(f, l4), Word(f, l4 + 2)))
  {
  }

  lemma RewritableOctets(ihl: nat, protocol: byte)
    requires protocol == 6 || protocol == 17
    ensures var l4 := 14 + ihl;
            var at := l4 + if protocol == 6 then 16 else 6;
            forall i: nat :: Rewritable(i, ihl, protocol) <==> 24 <= i < 34 || l4 <= i < l4 + 4 || at <= i < at + 2
  {
  }

  /** Of any parsed frame with a full header, the announced datagram is in it. */
  predicate DatagramInside(f: seq<byte>, ihl: nat)
    requires 34 <= |f|
  {
    ihl <= Word(f, 16) && 14 + Word(f, 16) <= |f|
  }

  /** Exactly when the rewrite panics: the header, a port to set, or, for a datagram that is
      there, the checksum of TCP or UDP lies outside. */
  lemma PanicOctets(f: seq<byte>, ihl: nat, r: Rewrite)
    requires 34 <= |f| && 20 <= ihl && ihl % 4 == 0
    ensures InBounds(f, ihl, r) <==>
            && 14 + ihl <= |f|
            && (f[23] == 6 || f[23] == 17 ==>
                  && (r.srcPort.Some? ==> 14 + ihl + 2 <= |f|) && (r.dstPort.Some? ==> 14 + ihl + 4 <= |f|)
                  && (DatagramInside(f, ihl) ==> 14 + ihl + (if f[23] == 6 then 18 else 8) <= |f|))
  {
    InBoundsIff(f, ihl, r);
    assert TotalLen(f) == Word(f, 16);
    hide InBounds;
  }

  /** And what it leaves alone, whatever the protocol: a port it is not to set, the segment
      checksum of a datagram that is not all there, and all but the header otherwise. */
  lemma UntouchedOctets(f: seq<byte>, ihl: nat, r: Rewrite, i: nat)
    requires 34 <= |f| && 20 <= ihl && ihl % 4 == 0 && InBounds(f, ihl, r) && i < |f|
    requires !(24 <= i < 34)
    requires f[23] == 6 || f[23] == 17 ==>
               var l4 := 14 + ihl;
               var at := l4 + if f[23] == 6 then 16 else 6;
               && (r.srcPort.Some? ==> !(l4 <= i < l4 + 2)) && (r.dstPort.Some? ==> !(l4 + 2 <= i < l4 + 4))
               && (DatagramInside(f, ihl) ==> !(at <= i < at + 2))
    ensures Rewritten(f, ihl, r)[i] == f[i]
  {
    AddressStage(f, r);
    TotalLenAfter(f, ihl, r);
    assert TotalLen(f) == Word(f, 16);
    hide WithAddresses, TotalLen, Word;
    var f2 := WithIpChecksum(WithAddresses(f, r), ihl);
    assert f2[i] == f[i];
    hide WithIpChecksum;
    assert BeforeL4Checksum(f, ihl, r)[i] == f[i];
    hide BeforeL4Checksum;
  }

  /** What it sets on any such frame, whatever the protocol and however much of the datagram
      is there: the addresses, the ports of TCP and UDP, and the header checksum. */
  lemma SetOnAnyFrame(f: seq<byte>, ihl: nat, r: Rewrite)
    requires 34 <= |f| && 20 <= ihl && ihl % 4 == 0 && InBounds(f, ihl, r)
    ensures var g := Rewritten(f, ihl, r);
            && Octets(g, 26) == Set(r.srcAddr, Octets(f, 26)) && Octets(g, 30) == Set(r.dstAddr, Octets(f, 30))
            && SumsIn(g, 14, 14 + ihl)
            && (f[23] == 6 || f[23] == 17 ==>
                  && (r.srcPort.Some? ==> Word(g, 14 + ihl) == r.srcPort.value)
                  && (r.dstPort.Some? ==> Word(g, 14 + ihl + 2) == r.dstPort.value))
  {
    var l4 := 14 + ihl;
    var f1 := WithAddresses(f, r);
    var f2 := WithIpChecksum(f1, ihl);
    AddressStage(f, r);
    IpChecksumStage(f1, ihl);
    VerifiesIff(f2[14..l4]);
    hide WithAddresses, WithIpChecksum, Verifies, WordSum, SumsUp, TotalLen;
    var h := WithPorts(f2, l4, f[23], r);
    PortsSet(f2, l4, f[23], r);
    L4ChecksumBelow(h, ihl, f[23]);
    hide WithPorts;
    var g := Rewritten(f, ihl, r);
    assert g[14..l4] == f2[14..l4];
  }

  predicate SumsIn(g: seq<byte>, lo: nat, hi: nat)
    requires lo <= hi <= |g|
  {
    SumsUp(g[lo..hi])
  }

  lemma PortsSet(f: seq<byte>, l4: nat, protocol: byte, r: Rewrite)
    requires HasPorts(protocol) ==> PortsInBounds(f, l4, r)
    ensures var g := WithPorts(f, l4, protocol, r);
            && (forall i :: 0 <= i < |f| && i < l4 ==> g[i] == f[i])
            && (HasPorts(protocol) ==>
                  && (r.srcPort.Some? ==> Word(g, l4) == r.srcPort.value)
                  && (r.dstPort.Some? ==> Word(g, l4 + 2) == r.dstPort.value))
  {
  }

  lemma L4ChecksumBelow(f: seq<byte>, ihl: nat, protocol: byte)
    requires 34 <= |f| && 14 + ihl <= |f| && CsumInBounds(f, ihl, protocol)
    ensures forall i :: 0 <= i < |f| && i < 14 + ihl + 6 ==> WithL4Checksum(f, ihl, protocol)[i] == f[i]
  {
  }

  /** Both checksums in plain arithmetic. Together with the values they are not this
      determines them: the sum is a multiple of 0xFFFF, the header's and TCP's field is not
      all ones, and UDP's is not zero. */
  predicate ChecksumsRight(g: seq<byte>)
    requires Complete(g)
  {
    var l4, total := 14 + 4 * (g[14] as int - 64), Word(g, 16);
    var len := total + 14 - l4;
    && SumsUp(g[14..l4]) && Word(g, 24) != 0xFFFF
    && SumsUp(g[26..34] + [0, g[23], len / 256, len % 256] + g[l4..14 + total])
    && Word(g, ChecksumAt(g)) != (if g[23] == 6 then 0xFFFF else 0)
  }

  lemma RewriteSums(f: seq<byte>, r: Rewrite)
    requires Complete(f)
    ensures var ihl := 4 * (f[14] as int - 64);
            InBounds(f, ihl, r) && Complete(Rewritten(f, ihl, r)) && ChecksumsRight(Rewritten(f, ihl, r))
  {
    var ihl := 4 * (f[14] as int - 64);
    RewriteOctets(f, r);
    var g := Rewritten(f, ihl, r);
    KeptByRewrite(f, g, r);
    hide OnlySet, ChecksumsRight, Word, Rewritten, InBounds, Complete, HeaderVerifies, SegmentVerifies, SegmentInside;
    RewriteVerified(f, ihl, r);
    RewriteFieldsNotOnes(f, r);
    VerifiedSums(g, ihl);
  }

  lemma RewriteVerified(f: seq<byte>, ihl: nat, r: Rewrite)
    requires Complete(f) && ihl == 4 * (f[14] as int - 64)
    ensures InBounds(f, ihl, r) && 14 + ihl + 8 <= |f|
    ensures var g := Rewritten(f, ihl, r);
            && HeaderVerifies(g, ihl) && SegmentInside(g, ihl) && SegmentVerifies(g, ihl, f[23])
            && (f[23] == 17 ==> BE16(g[14 + ihl + 6], g[14 + ihl + 7]) != 0)
  {
    CompleteIff(f);
    CompleteParts(f, ihl);
    hide Rewritten, InBounds, Complete, HeaderVerifies, SegmentVerifies, SegmentInside, WellFormed, ParseIpv4;
    RewriteHeaderVerifies(f, r);
    RewriteSegmentVerifies(f, r);
  }

  lemma KeptByRewrite(f: seq<byte>, g: seq<byte>, r: Rewrite)
    requires Complete(f) && |g| == |f| && OnlySet(f, g, r)
    ensures g[14] == f[14] && g[16] == f[16] && g[17] == f[17] && g[23] == f[23]
    ensures 14 + 4 * (f[14] as int - 64) + (if f[23] == 6 then 20 else 8) <= |f|
  {
  }

  lemma VerifiedSums(g: seq<byte>, ihl: nat)
    requires Complete(g) && ihl == 4 * (g[14] as int - 64)
    requires HeaderVerifies(g, ihl) && SegmentInside(g, ihl) && SegmentVerifies(g, ihl, g[23])
    requires Word(g, 24) != 0xFFFF && (g[23] == 6 ==> Word(g, 14 + ihl + 16) != 0xFFFF)
    requires g[23] == 17 ==> BE16(g[14 + ihl + 6], g[14 + ihl + 7]) != 0
    ensures ChecksumsRight(g)
  {
    var l4, total := 14 + ihl, Word(g, 16);
    var len := total - ihl;
    VerifiesIff(g[14..l4]);
    PseudoOctets(g, g[23], len);
    VerifiesIff(g[26..34] + [0, g[23], len / 256, len % 256] + g[l4..14 + total]);
    assert TotalLen(g) == total;
    hide Verifies, WordSum;
  }

  predicate SumsUp(b: seq<byte>) { WordSum(b) % 0xFFFF == 0 && WordSum(b) != 0 }

  lemma PseudoOctets(f: seq<byte>, protocol: byte, len: u16)
    requires 34 <= |f|
    ensures PseudoHeader(f, protocol, len) == f[26..34] + [0, protocol, len / 256, len % 256]
  {
    var b := ToBE16(len);
  }

  lemma RewriteFieldsNotOnes(f: seq<byte>, r: Rewrite)
    requires Complete(f)
    ensures var ihl := 4 * (f[14] as int - 64);
            && InBounds(f, ihl, r)
            && var g := Rewritten(f, ihl, r);
               Word(g, 24) != 0xFFFF && (f[23] == 6 ==> Word(g, 14 + ihl + 16) != 0xFFFF)
  {
    var ihl := 4 * (f[14] as int - 64);
    hide OnlySet, InBounds, Rewritten, Word, Complete, SegmentInside, HasPorts;
    CompleteInBounds(f, ihl, r);
    CompleteParts(f, ihl);
    FieldsNotOnes(f, ihl, r);
  }

  lemma CompleteInBounds(f: seq<byte>, ihl: nat, r: Rewrite)
    requires Complete(f) && ihl == 4 * (f[14] as int - 64)
    ensures InBounds(f, ihl, r)
  {
    hide InBounds, Rewritten, OnlySet, Complete;
    RewriteOctets(f, r);
  }

  lemma CompleteParts(f: seq<byte>, ihl: nat)
    requires Complete(f) && ihl == 4 * (f[14] as int - 64)
    ensures 20 <= ihl && ihl % 4 == 0 && 14 + ihl + 8 <= |f| && (f[23] == 6 ==> 14 + ihl + 20 <= |f|)
    ensures HasPorts(f[23]) && f[14] != 0 && SegmentInside(f, ihl)
  {
  }

  lemma FieldsNotOnes(f: seq<byte>, ihl: nat, r: Rewrite)
    requires 20 <= ihl && ihl % 4 == 0 && 14 + ihl + 8 <= |f| && (f[23] == 6 ==> 14 + ihl + 20 <= |f|)
    requires HasPorts(f[23]) && f[14] != 0 && SegmentInside(f, ihl) && InBounds(f, ihl, r)
    ensures var g := Rewritten(f, ihl, r);
            Word(g, 24) != 0xFFFF && (f[23] == 6 ==> Word(g, 14 + ihl + 16) != 0xFFFF)
  {
    HeaderNotOnes(f, ihl, r);
    TotalLenAfter(f, ihl, r);
    hide BeforeL4Checksum, WithL4Checksum, Word;
    L4NotOnes(BeforeL4Checksum(f, ihl, r), ihl, f[23]);
  }

  lemma HeaderNotOnes(f: seq<byte>, ihl: nat, r: Rewrite)
    requires 20 <= ihl && 14 + ihl + 4 <= |f| && HasPorts(f[23]) && f[14] != 0
    ensures Word(BeforeL4Checksum(f, ihl, r), 24) != 0xFFFF
  {
    AddressStage(f, r);
    var f1 := WithAddresses(f, r);
    var f2 := WithIpChecksum(f1, ihl);
    FilledNotOnes(f1, [], 14, 24, 14 + ihl, 0);
    PortStage(f2, 14 + ihl, f[23], r);
  }

  lemma L4NotOnes(h: seq<byte>, ihl: nat, protocol: byte)
    requires 34 <= |h| && 20 <= ihl && CsumInBounds(h, ihl, protocol) && SegmentInside(h, ihl) && HasPorts(protocol)
    ensures var g, at := WithL4Checksum(h, ihl, protocol), 14 + ihl + CsumOffset(protocol);
            Word(g, 24) == Word(h, 24) && (protocol == 6 ==> at == 14 + ihl + 16 && Word(g, at) != 0xFFFF)
  {
    var pseudo := PseudoHeader(h, protocol, TotalLen(h) - ihl);
    if protocol == 6 {
      FilledNotOnes(h, pseudo, 14 + ihl, 14 + ihl + CsumOffset(protocol), 14 + TotalLen(h), 9);
    }
  }

  /** `recompute_l4_checksum`. */
  method RecomputeL4Checksum(frame: array<byte>, ihl: nat, protocol: byte)
    requires ETH_HDR_LEN + 20 <= frame.Length && CsumInBounds(frame[..], ihl, protocol)
    modifies frame
    ensures frame[..] == WithL4Checksum(old(frame[..]), ihl, protocol)
  {
    hide Filled, BE16;
    ghost var f := frame[..];
    var totalLen := BE16(frame[IP_TOTAL_LEN], frame[IP_TOTAL_LEN + 1]);
    assert totalLen == TotalLen(f);
    var l4 := ETH_HDR_LEN + ihl;
    if totalLen < ihl || l4 + (totalLen - ihl) > frame.Length {
      return;
    }
    var l4Len: u16 := totalLen - ihl;
    assert SegmentInside(f, ihl) && l4 + l4Len == ETH_HDR_LEN + TotalLen(f);
    if protocol == PROTO_TCP || protocol == PROTO_UDP {
      var pseudo := PseudoHeader(frame[..], protocol, l4Len);
      FillChecksum(frame, pseudo, l4, l4 + CsumOffset(protocol), l4 + l4Len, protocol == PROTO_UDP);
    }
  }

  method RewriteAddresses(frame: array<byte>, r: Rewrite)
    requires ETH_HDR_LEN + 20 <= frame.Length
    modifies frame
    ensures frame[..] == WithAddresses(old(frame[..]), r)
  {
    if r.srcAddr.Some? { CopyFromSlice(frame, IP_SRC, ToBE32(r.srcAddr.value)); }
    if r.dstAddr.Some? { CopyFromSlice(frame, IP_DST, ToBE32(r.dstAddr.value)); }
  }

  method RewritePorts(frame: array<byte>, l4: nat, protocol: byte, r: Rewrite)
    requires HasPorts(protocol) ==> PortsInBounds(frame[..], l4, r)
    modifies frame
    ensures frame[..] == WithPorts(old(frame[..]), l4, protocol, r)
  {
    if protocol == PROTO_TCP || protocol == PROTO_UDP {
      if r.srcPort.Some? { CopyFromSlice(frame, l4, ToBE16(r.srcPort.value)); }
      if r.dstPort.Some? { CopyFromSlice(frame, l4 + 2, ToBE16(r.dstPort.value)); }
    }
  }

  /** `rewrite_ipv4`; the header length field holds at most 60. */
  method RewriteIpv4(frame: array<byte>, ihl: nat, r: Rewrite)
    requires ihl <= 60 && InBounds(frame[..], ihl, r)
    modifies frame
    ensures frame[..] == Rewritten(old(frame[..]), ihl, r)
  {
    ghost var f := frame[..];
    AddressStage(f, r);
    RewriteAddresses(frame, r);
    FillChecksum(frame, [], ETH_HDR_LEN, IP_CSUM, ETH_HDR_LEN + ihl, false);
    var protocol := frame[IP_PROTOCOL];
    assert protocol == frame[..][IP_PROTOCOL] == f[IP_PROTOCOL];
    RewritePorts(frame, ETH_HDR_LEN + ihl, protocol, r);
    RecomputeL4Checksum(frame, ihl, protocol);
  }
}
