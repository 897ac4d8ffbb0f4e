/** The software dataplane: `decide` on whole frames, the table updates, and the NAT
    round trip through frames, tables and later traffic. */
module SoftDataplane {
  import opened Bytes
  import opened Net
  import opened Checksum
  import opened Frame
  import opened Routing
  import opened Conntrack

  datatype Decision =
    | Deliver(iface: u32, frame: seq<byte>)
    | Encapsulate(remote: IpAddr, vni: u32, frame: seq<byte>)
    | Dropped
    | Panicked

  /** `frame` with the destination MAC of interface `iface`, if it has one. */
  function Addressed(s: State, iface: u32, frame: seq<byte>): (g: seq<byte>)
    requires |frame| >= 6
    ensures |g| == |frame| && forall i :: 6 <= i < |frame| ==> g[i] == frame[i]
  {
    if iface in s.interfaces && s.interfaces[iface].Some? then Splice(frame, 0, s.interfaces[iface].value) else frame
  }

  /** Where a chosen route sends the frame. */
  function Dispatch(node: u32, s: State, hop: NextHop, frame: seq<byte>): Decision
    requires |frame| >= 6
  {
    match hop
    case Local(iface) => Deliver(iface, Addressed(s, iface, frame))
    case Remote(peer) =>
      if (node, peer) in s.tunnels
      then Encapsulate(s.tunnels[(node, peer)].remote, s.tunnels[(node, peer)].vni, frame)
      else Dropped
    case _ => Dropped
  }

  /** The flow `forward` hashes; an unknown protocol counts as ICMP here. */
  function ForwardTuple(frame: seq<byte>): (t: FlowTuple)
    requires ParseIpv4(frame).Some?
    ensures TupleOf(frame).Some? ==> t == TupleOf(frame).value
  {
    var ip := ParseIpv4(frame).value;
    var protocol := Or(ProtoFromByte(ip.protocol), Icmp);
    var ports := if protocol.Icmp? then (0, 0) else Or(ParsePorts(frame, ETH_HDR_LEN + ip.ihl), (0, 0));
    FlowTuple(V4(ip.src), ports.0, V4(ip.dst), ports.1, protocol)
  }

  /** What `forward` may decide: a drop, the dispatch of a route the lookup may return, or
      a panic when the weights of a longest match overflow. */
  ghost predicate Forwards(hash: FlowHash, node: u32, s: State, frame: seq<byte>, d: Decision)
  {
    if ParseIpv4(frame).None? then d == Dropped
    else
      var t := ForwardTuple(frame);
      || (d == Dropped && LookupResult(s.routes, t.dst, hash(t), None))
      || (d == Panicked && LookupPanics(s.routes, t.dst))
      || exists route :: LookupResult(s.routes, t.dst, hash(t), Some(route))
           && d == Dispatch(node, s, route.nextHop, frame)
  }

  /** The frame `decide` forwards: rewritten when the tables ask for NAT. */
  ghost function Forwarded(hash: FlowHash, s: State, frame: seq<byte>): seq<byte>
    requires TupleOf(frame).Some? && NatInBounds(hash, s, frame)
  {
    match Classify(hash, s, TupleOf(frame).value)
    case Translate(rewrite) => Rewritten(frame, ParseIpv4(frame).value.ihl, rewrite)
    case _ => frame
  }

  /** If the frame is to be rewritten, the rewrite stays inside it. */
  ghost predicate NatInBounds(hash: FlowHash, s: State, frame: seq<byte>)
  {
    TupleOf(frame).Some? && Classify(hash, s, TupleOf(frame).value).Translate? ==>
      InBounds(frame, ParseIpv4(frame).value.ihl, Classify(hash, s, TupleOf(frame).value).rewrite)
  }

  /** What `decide` may return for `frame` in state `s`; a rewrite that does not stay
      inside the frame is a panic. */
  ghost predicate Decides(hash: FlowHash, node: u32, s: State, frame: seq<byte>, d: Decision)
  {
    if TupleOf(frame).None? || Classify(hash, s, TupleOf(frame).value).Drop? then d == Dropped
    else if !NatInBounds(hash, s, frame) then d == Panicked
    else Forwards(hash, node, Step(hash, s, Packet(frame)), Forwarded(hash, s, frame), d)
  }

  class Dataplane {
    const localNode: u32
    const hash: FlowHash
    var state: State

    constructor (localNode: u32, hash: FlowHash)
      ensures state == EMPTY && this.localNode == localNode && this.hash == hash
      ensures TableInv(state.routes) && KeyedByOriginal(state) && IndexAgrees(state)
    {
      this.localNode, this.hash, this.state := localNode, hash, EMPTY;
    }

    /** `forward`: lookup and next-hop dispatch, no NAT. */
    method Forward(frame: array<byte>) returns (d: Decision)
      ensures Forwards(hash, localNode, state, frame[..], d)
    {
      if ParseIpv4(frame[..]).None? {
        return Dropped;
      }
      var flow := ForwardTuple(frame[..]);
      var route := LookupRoute(state.routes, flow.dst, hash(flow));
      match route {
        case Panics => d := Panicked;
        case Done(None) => d := Dropped;
        case Done(Some(r)) => d := Dispatch(localNode, state, r.nextHop, frame[..]);
      }
    }

    /** `rewrite_ipv4` on a parsed frame; `panics` when it would leave the frame. */
    method TryRewrite(frame: array<byte>, ihl: nat, r: Rewrite) returns (panics: bool)
      requires ParseIpv4(frame[..]).Some? && ParseIpv4(frame[..]).value.ihl == ihl
      modifies frame
      ensures panics <==> !InBounds(old(frame[..]), ihl, r)
      ensures !panics ==> frame[..] == Rewritten(old(frame[..]), ihl, r)
    {
      hide InBounds, Rewritten, RewriteFits;
      InBoundsIff(frame[..], ihl, r);
      panics := !RewriteFits(frame[..], ihl, r);
      if !panics {
        RewriteIpv4(frame, ihl, r);
      }
    }

    /** Step 1 of `decide`: return traffic of a flow already translated. */
    method TranslateReply(frame: array<byte>, ip: Ipv4Info, t: FlowTuple) returns (panics: bool)
      requires ParseIpv4(frame[..]) == Some(ip) && TupleOf(frame[..]) == Some(t)
      requires t in state.replyIndex
      modifies `state, frame
      ensures state == Track(hash, old(state), t)
      ensures panics <==> !NatInBounds(hash, old(state), old(frame[..]))
      ensures !panics ==> frame[..] == Forwarded(hash, old(state), old(frame[..]))
    {
      hide InBounds, Rewritten, ParseIpv4, TupleOf;
      panics := false;
      var original := state.replyIndex[t];
      if original in state.conntrack {
        var entry := state.conntrack[original];
        if entry.state == New {
          state := state.(conntrack := state.conntrack[original := entry.(state := Established)]);
        }
        if entry.original.dst.V4? {
          var o := entry.original;
          panics := TryRewrite(frame, ip.ihl, Rewrite(Some(o.dst.v4), None, Some(o.dstPort), None));
        }
      }
    }

    /** Step 2 of `decide`: new traffic to a known service frontend. */
    method TranslateRequest(frame: array<byte>, ip: Ipv4Info, t: FlowTuple) returns (ok: bool, panics: bool)
      requires ParseIpv4(frame[..]) == Some(ip) && TupleOf(frame[..]) == Some(t)
      requires t !in state.replyIndex && FrontendOf(t) in state.services
      modifies `state, frame
      ensures ok <==> !Classify(hash, old(state), t).Drop?
      ensures state == Track(hash, old(state), t)
      ensures panics <==> !NatInBounds(hash, old(state), old(frame[..]))
      ensures ok && !panics ==> frame[..] == Forwarded(hash, old(state), old(frame[..]))
    {
      hide InBounds, Rewritten, ParseIpv4, TupleOf;
      var backend := SelectBackend(hash, state.services[FrontendOf(t)], t);
      if backend.None? {
        return false, false;
      }
      match backend.value.translation {
        case Destination(V4(addr), natPort) =>
          var port := Or(natPort, backend.value.port);
          var reply := FlowTuple(V4(addr), port, t.src, t.srcPort, t.protocol);
          state := state.(conntrack := state.conntrack[t := Entry(t, reply, New)],
                          replyIndex := state.replyIndex[reply := t]);
          panics := TryRewrite(frame, ip.ihl, Rewrite(None, Some(addr), None, Some(port)));
          return true, panics;
        case _ =>
          return false, false;
      }
    }

    /** `decide`, for every frame and every state. The frame is rewritten in place. */
    method Decide(frame: array<byte>) returns (d: Decision)
      modifies `state, frame
      ensures state == Step(hash, old(state), Packet(old(frame[..])))
      ensures Decides(hash, localNode, old(state), old(frame[..]), d)
    {
      hide InBounds, Rewritten, Forwards, Track, Classify;
      if ParseIpv4(frame[..]).None? {
        return Dropped;
      }
      var ip := ParseIpv4(frame[..]).value;
      if ProtoFromByte(ip.protocol).None? {
        return Dropped;
      }
      var t := ForwardTuple(frame[..]);
      assert TupleOf(frame[..]) == Some(t);
      hide ParseIpv4, TupleOf;
      if t in state.replyIndex {
        ReplyIsNotDropped(hash, state, t);
        var panics := TranslateReply(frame, ip, t);
        if panics {
          return Panicked;
        }
      } else if FrontendOf(t) in state.services {
        var ok, panics := TranslateRequest(frame, ip, t);
        if !ok {
          return Dropped;
        }
        if panics {
          return Panicked;
        }
      } else {
        UnknownPasses(hash, state, t);
      }
      d := Forward(frame);
    }

    /** `add_route`: replaces the group's route via the same next hop, else appends. */
    method AddRoute(route: Route)
      modifies `state
      ensures state == Step(hash, old(state), Event.AddRoute(route))
    {
      var group := if route.destination in state.routes then state.routes[route.destination] else [];
      var i := 0;
      while i < |group| && group[i].nextHop != route.nextHop
        invariant 0 <= i <= |group|
        invariant forall j :: 0 <= j < i ==> group[j].nextHop != route.nextHop
      {
        i := i + 1;
      }
      assert i == FirstVia(group, route.nextHop);
      group := if i < |group| then group[i := route] else group + [route];
      state := state.(routes := state.routes[route.destination := group]);
    }

    /** `remove_route`: drops the group's routes via `hop`, and an emptied group. */
    method RemoveRoute(dst: IpNet, hop: NextHop)
      modifies `state
      ensures state == Step(hash, old(state), Event.RemoveRoute(dst, hop))
    {
      if dst in state.routes {
        var group := Retain(state.routes[dst], hop);
        state := state.(routes := if group == [] then state.routes - {dst} else state.routes[dst := group]);
      }
    }

    /** `flush_conntrack`: collects the stale flows, then removes them one by one. */
    method FlushConntrack(endpoint: u32)
      modifies `state
      ensures state == Step(hash, old(state), Event.FlushConntrack(endpoint))
    {
      if endpoint !in state.endpoints {
        return;
      }
      ghost var s := state;
      var addrs := state.endpoints[endpoint];
      var stale := StaleKeys(state, addrs);
      ghost var done: set<FlowTuple> := {};
      assert state == Without(s, done);
      while stale != {}
        invariant done + stale == StaleKeys(s, addrs)
        invariant done !! stale
        invariant state == Without(s, done)
        decreases stale
      {
        var key :| key in stale;
        if key in state.conntrack {
          var reply := state.conntrack[key].reply;
          state := state.(conntrack := state.conntrack - {key}, replyIndex := state.replyIndex - {reply});
        }
        WithoutOneMore(s, done, key);
        stale, done := stale - {key}, done + {key};
      }
      assert done == StaleKeys(s, addrs);
    }
  }

  lemma ReplyIsNotDropped(hash: FlowHash, s: State, t: FlowTuple)
    requires t in s.replyIndex
    ensures !Classify(hash, s, t).Drop?
  {
  }

  lemma UnknownPasses(hash: FlowHash, s: State, t: FlowTuple)
    requires t !in s.replyIndex && FrontendOf(t) !in s.services
    ensures Classify(hash, s, t).Pass? && Track(hash, s, t) == s
  {
  }

  // ------------------------------------------------------------------ what is decided

  /** A frame on its way along `hop`: delivered with the interface's MAC if it has one,
      encapsulated if there is a tunnel to the node, and otherwise dropped. */
  predicate SentAlong(node: u32, s: State, hop: NextHop, frame: seq<byte>, d: Decision)
    requires |frame| >= 6
  {
    match hop
    case Local(i) =>
      && d.Deliver? && d.iface == i && |d.frame| == |frame| && d.frame[6..] == frame[6..]
      && d.frame[..6] == if i in s.interfaces && s.interfaces[i].Some? then s.interfaces[i].value else frame[..6]
    case Remote(peer) =>
      if (node, peer) in s.tunnels
      then d == Encapsulate(s.tunnels[(node, peer)].remote, s.tunnels[(node, peer)].vni, frame)
      else d == Dropped
    case Gateway(_) => d == Dropped
    case Blackhole => d == Dropped
  }

  /** `forward` takes the next hop of a route the lookup returns, drops what it finds no
      route for, and panics only where the lookup does. */
  lemma ForwardsAlong(hash: FlowHash, node: u32, s: State, frame: seq<byte>, d: Decision)
    requires ParseIpv4(frame).Some?
    ensures var t := ForwardTuple(frame);
            Forwards(hash, node, s, frame, d) <==>
            || (exists r :: LookupResult(s.routes, t.dst, hash(t), Some(r)) && SentAlong(node, s, r.nextHop, frame, d))
            || (LookupResult(s.routes, t.dst, hash(t), None) && d == Dropped)
            || (LookupPanics(s.routes, t.dst) && d == Panicked)
  {
    forall hop ensures d == Dispatch(node, s, hop, frame) <==> SentAlong(node, s, hop, frame, d) {
      DispatchIff(node, s, hop, frame, d);
    }
    hide Dispatch, SentAlong, LookupResult, LookupPanics, ParseIpv4, ForwardTuple;
  }

  lemma DispatchIff(node: u32, s: State, hop: NextHop, frame: seq<byte>, d: Decision)
    requires |frame| >= 6
    ensures d == Dispatch(node, s, hop, frame) <==> SentAlong(node, s, hop, frame, d)
  {
    if hop.Local? {
      var g := Addressed(s, hop.iface, frame);
      assert g[6..] == frame[6..];
      var known := hop.iface in s.interfaces && s.interfaces[hop.iface].Some?;
      assert g[..6] == if known then s.interfaces[hop.iface].value else frame[..6];
      if d.Deliver? && SentAlong(node, s, hop, frame, d) {
        assert d.frame == d.frame[..6] + d.frame[6..] && g == g[..6] + g[6..];
      }
    }
  }

  /** So where the lookup can only return one route, the frame goes along it. */
  lemma ForwardsOneWay(hash: FlowHash, node: u32, s: State, frame: seq<byte>, r: Route, d: Decision)
    requires ParseIpv4(frame).Some?
    requires var t := ForwardTuple(frame);
             && LookupResult(s.routes, t.dst, hash(t), Some(r)) && !LookupPanics(s.routes, t.dst)
             && forall other :: LookupResult(s.routes, t.dst, hash(t), other) ==> other == Some(r)
    ensures Forwards(hash, node, s, frame, d) <==> SentAlong(node, s, r.nextHop, frame, d)
  {
    ForwardsAlong(hash, node, s, frame, d);
    hide Forwards, SentAlong, LookupResult, LookupPanics, ParseIpv4, ForwardTuple;
  }

  /** The flow of a frame, read from its octets; `decide` drops other protocols unread. */
  lemma TupleSpelledOut(f: seq<byte>)
    requires ParseIpv4(f).Some?
    ensures var l4 := 14 + 4 * (f[14] as int - 64);
            var known := (f[23] == 6 || f[23] == 17) && l4 + 4 <= |f|;
            ForwardTuple(f)
            == FlowTuple(V4(Octets(f, 26)), if known then Word(f, l4) else 0,
                         V4(Octets(f, 30)), if known then Word(f, l4 + 2) else 0,
                         if f[23] == 6 then Tcp else if f[23] == 17 then Udp else Icmp)
    ensures TupleOf(f) == if f[23] == 1 || f[23] == 6 || f[23] == 17 then Some(ForwardTuple(f)) else None
  {
    ParsedOctets(f);
    var l4 := 14 + 4 * (f[14] as int - 64);
    if l4 + 4 <= |f| { PortOctets(f, l4); }
    hide ParseIpv4, Octets, Word;
  }

  /** The frame is rewritten in place and then forwarded. */
  ghost predicate RewrittenAlong(hash: FlowHash, node: u32, s: State, f: seq<byte>, r: Rewrite, d: Decision)
    requires ParseIpv4(f).Some?
  {
    var ihl := ParseIpv4(f).value.ihl;
    if InBounds(f, ihl, r) then Forwards(hash, node, s, Rewritten(f, ihl, r), d) else d == Panicked
  }

  /** A reply of a recorded flow leaves with the address and port the flow was opened to
      as its source, and the flow is established if it was new. */
  lemma ReplySpelledOut(hash: FlowHash, node: u32, s: State, f: seq<byte>, t: FlowTuple, d: Decision)
    requires TupleOf(f) == Some(t) && t in s.replyIndex && s.replyIndex[t] in s.conntrack
    ensures var o, after := s.replyIndex[t], Step(hash, s, Packet(f));
            var e := s.conntrack[o];
            && after == s.(conntrack := s.conntrack[o := if e.state.New? then e.(state := Established) else e])
            && (Decides(hash, node, s, f, d) <==>
                var (dst, port) := (e.original.dst, e.original.dstPort);
                if dst.V4? then RewrittenAlong(hash, node, after, f, Rewrite(Some(dst.v4), None, Some(port), None), d)
                else Forwards(hash, node, after, f, d))
  {
    hide Forwards, InBounds, Rewritten;
  }

  /** A packet to a service opens a flow to the backend its hash picks, and leaves for that
      backend; without an IPv4 backend it is dropped and recorded nowhere. */
  lemma RequestSpelledOut(hash: FlowHash, node: u32, s: State, f: seq<byte>, t: FlowTuple, d: Decision)
    requires TupleOf(f) == Some(t) && t !in s.replyIndex && Frontend(t.dst, t.dstPort, t.protocol) in s.services
    ensures var backends, after := s.services[Frontend(t.dst, t.dstPort, t.protocol)], Step(hash, s, Packet(f));
            if backends == [] then after == s && (Decides(hash, node, s, f, d) <==> d == Dropped)
            else
              match backends[hash(t) % |backends|]
              case Backend(_, own, Destination(V4(addr), given)) =>
                var port := if given.Some? then given.value else own;
                var reply := FlowTuple(V4(addr), port, t.src, t.srcPort, t.protocol);
                && after == s.(conntrack := s.conntrack[t := Entry(t, reply, New)],
                               replyIndex := s.replyIndex[reply := t])
                && (Decides(hash, node, s, f, d) <==>
                    RewrittenAlong(hash, node, after, f, Rewrite(None, Some(addr), None, Some(port)), d))
              case _ => after == s && (Decides(hash, node, s, f, d) <==> d == Dropped)
  {
    hide Forwards, InBounds, Rewritten;
  }

  /** Anything else is forwarded as it is, and what cannot be read is dropped. */
  lemma OtherSpelledOut(hash: FlowHash, node: u32, s: State, f: seq<byte>, d: Decision)
    requires TupleOf(f).Some? ==>
               var t := TupleOf(f).value;
               if t in s.replyIndex then s.replyIndex[t] !in s.conntrack
               else Frontend(t.dst, t.dstPort, t.protocol) !in s.services
    ensures Step(hash, s, Packet(f)) == s
    ensures Decides(hash, node, s, f, d) <==> if TupleOf(f).Some? then Forwards(hash, node, s, f, d) else d == Dropped
  {
    hide Forwards, InBounds, Rewritten;
  }

  // ------------------------------------------------------------------ the frames it panics on

  /** A frame that is to be translated makes `decide` panic exactly when, as received, it
      is too short for the ports or for the checksum of the datagram it announces. */
  lemma NatPanicsIff(hash: FlowHash, s: State, f: seq<byte>)
    requires TupleOf(f).Some? && Classify(hash, s, TupleOf(f).value).Translate?
    ensures NatInBounds(hash, s, f)
            <==> RewriteFits(f, ParseIpv4(f).value.ihl, Classify(hash, s, TupleOf(f).value).rewrite)
  {
    hide Classify, InBounds, RewriteFits;
    InBoundsIff(f, ParseIpv4(f).value.ihl, Classify(hash, s, TupleOf(f).value).rewrite);
  }

  /** Such frames: UDP to a service, the datagram and the buffer ending 4 to 7 octets
      after the IP header. The ports are there, the flow is recorded, and then the
      checksum field is not. */
  lemma ShortUdpPanics(hash: FlowHash, node: u32, s: State, f: seq<byte>, d: Decision)
    requires ParseIpv4(f).Some? && ParseIpv4(f).value.ihl >= 20 && ParseIpv4(f).value.protocol == PROTO_UDP
    requires |f| == ETH_HDR_LEN + TotalLen(f)
    requires ParseIpv4(f).value.ihl + 4 <= TotalLen(f) < ParseIpv4(f).value.ihl + 8
    requires TupleOf(f).Some? && Opens(hash, s, TupleOf(f).value).Some?
    ensures Decides(hash, node, s, f, d) <==> d == Panicked
    ensures TupleOf(f).value in Step(hash, s, Packet(f)).conntrack
  {
    var t := TupleOf(f).value;
    assert Classify(hash, s, t).Translate?;
    NatPanicsIff(hash, s, f);
    hide Classify, InBounds, Forwards, Opens, ReplyFor;
    assert !RewriteFits(f, ParseIpv4(f).value.ihl, Classify(hash, s, t).rewrite);
  }

  lemma WithoutOneMore(s: State, done: set<FlowTuple>, key: FlowTuple)
    requires key !in done
    ensures var before := Without(s, done);
            Without(s, done + {key}) ==
            if key in before.conntrack
            then before.(conntrack := before.conntrack - {key},
                         replyIndex := before.replyIndex - {before.conntrack[key].reply})
            else before
  {
    var before, after := Without(s, done), Without(s, done + {key});
    var gone := set k | k in done && k in s.conntrack :: s.conntrack[k].reply;
    var gone' := set k | k in done + {key} && k in s.conntrack :: s.conntrack[k].reply;
    if key in s.conntrack {
      assert gone' == gone + {s.conntrack[key].reply};
      assert s.conntrack - (done + {key}) == before.conntrack - {key};
      assert s.replyIndex - gone' == (s.replyIndex - gone) - {s.conntrack[key].reply};
    } else {
      assert gone' == gone;
      assert s.conntrack - (done + {key}) == s.conntrack - done;
    }
  }

  // ------------------------------------------------------------------ the round trip

  /** The frame a decision sends out, up to the tunnel header. */
  function Sent(d: Decision): Option<seq<byte>>
  {
    match d
    case Deliver(_, frame) => Some(frame)
    case Encapsulate(_, _, frame) => Some(frame)
    case _ => None
  }

  /** `out` carries tuple `t`, verifies at both layers, and differs from `f` only in
      the destination MAC, the addresses, the ports and the two checksums. */
  ghost predicate CleanRewrite(f: seq<byte>, out: seq<byte>, t: FlowTuple)
    requires WellFormed(f)
  {
    var info := ParseIpv4(f).value;
    && |out| == |f| && WellFormed(out)
    && TupleOf(out) == Some(t)
    && ParseIpv4(out).value.ihl == info.ihl
    && HeaderVerifies(out, info.ihl) && SegmentVerifies(out, info.ihl, info.protocol)
    && forall i :: 6 <= i < |f| && !Rewritable(i, info.ihl, info.protocol) ==> out[i] == f[i]
  }

  lemma TupleOfWellFormed(f: seq<byte>)
    requires WellFormed(f)
    ensures ParseIpv4(f).Some?
    ensures var ip := ParseIpv4(f).value;
            var ports := ParsePorts(f, ETH_HDR_LEN + ip.ihl);
            ports.Some? && TupleOf(f) == Some(FlowTuple(V4(ip.src), ports.value.0, V4(ip.dst), ports.value.1,
                                                        if ip.protocol == PROTO_TCP then Tcp else Udp))
  {
  }

  /** Tuple `t` with the fields of a rewrite set. */
  function Translated(t: FlowTuple, r: Rewrite): FlowTuple
    requires t.src.V4? && t.dst.V4?
  {
    FlowTuple(V4(Or(r.srcAddr, t.src.v4)), Or(r.srcPort, t.srcPort),
              V4(Or(r.dstAddr, t.dst.v4)), Or(r.dstPort, t.dstPort), t.protocol)
  }

  lemma RewriteTranslates(f: seq<byte>, r: Rewrite)
    requires WellFormed(f)
    ensures TupleOf(f).Some? && TupleOf(f).value.src.V4? && TupleOf(f).value.dst.V4?
    ensures InBounds(f, ParseIpv4(f).value.ihl, r)
    ensures TupleOf(Rewritten(f, ParseIpv4(f).value.ihl, r)) == Some(Translated(TupleOf(f).value, r))
  {
    hide Rewritten, InBounds, WellFormed, ParseIpv4, ParsePorts, TupleOf, Rewritable;
    TupleOfWellFormed(f);
    RewriteReparses(f, r);
    TupleOfWellFormed(Rewritten(f, ParseIpv4(f).value.ihl, r));
  }

  lemma RewriteIsClean(f: seq<byte>, r: Rewrite)
    requires WellFormed(f)
    ensures TupleOf(f).Some? && TupleOf(f).value.src.V4? && TupleOf(f).value.dst.V4?
    ensures InBounds(f, ParseIpv4(f).value.ihl, r)
    ensures CleanRewrite(f, Rewritten(f, ParseIpv4(f).value.ihl, r), Translated(TupleOf(f).value, r))
  {
    RewriteTranslates(f, r);
    RewriteReparses(f, r);
    RewriteHeaderVerifies(f, r);
    RewriteSegmentVerifies(f, r);
  }

  /** The destination MAC is not looked at above Ethernet. */
  lemma MacIndependent(g: seq<byte>, out: seq<byte>)
    requires |out| == |g| && forall i :: 6 <= i < |g| ==> out[i] == g[i]
    ensures ParseIpv4(out) == ParseIpv4(g) && TupleOf(out) == TupleOf(g) && (WellFormed(out) <==> WellFormed(g))
    ensures |g| >= ETH_HDR_LEN + 20 ==> TotalLen(out) == TotalLen(g)
  {
    hide Nibbles;
  }

  lemma MacIndependentChecks(g: seq<byte>, out: seq<byte>, ihl: nat, protocol: byte)
    requires |out| == |g| && forall i :: 6 <= i < |g| ==> out[i] == g[i]
    requires |g| >= ETH_HDR_LEN + 20 && ETH_HDR_LEN + ihl <= |g| && SegmentInside(g, ihl) && SegmentInside(out, ihl)
    ensures HeaderVerifies(out, ihl) <==> HeaderVerifies(g, ihl)
    ensures SegmentVerifies(out, ihl, protocol) <==> SegmentVerifies(g, ihl, protocol)
  {
    hide Verifies;
    var hi := ETH_HDR_LEN + TotalLen(g);
    assert out[ETH_HDR_LEN..ETH_HDR_LEN + ihl] == g[ETH_HDR_LEN..ETH_HDR_LEN + ihl];
    assert out[ETH_HDR_LEN + ihl..hi] == g[ETH_HDR_LEN + ihl..hi];
    assert out[IP_SRC..IP_DST + 4] == g[IP_SRC..IP_DST + 4];
  }

  /** Setting the destination MAC does not disturb anything above Ethernet. */
  lemma AddressedIsClean(f: seq<byte>, g: seq<byte>, out: seq<byte>, t: FlowTuple)
    requires WellFormed(f) && CleanRewrite(f, g, t)
    requires |out| == |g| && forall i :: 6 <= i < |g| ==> out[i] == g[i]
    ensures CleanRewrite(f, out, t)
  {
    MacIndependent(g, out);
    var info := ParseIpv4(f).value;
    MacIndependentChecks(g, out, info.ihl, info.protocol);
    hide HeaderVerifies, SegmentVerifies, TupleOf, ParseIpv4;
  }

  /** Whatever `decide` sends for a frame it rewrites is a clean rewrite. */
  lemma SentIsClean(hash: FlowHash, node: u32, s: State, f: seq<byte>, d: Decision)
    requires WellFormed(f) && TupleOf(f).Some? && Classify(hash, s, TupleOf(f).value).Translate?
    requires Decides(hash, node, s, f, d)
    ensures var r := Classify(hash, s, TupleOf(f).value).rewrite;
            var t := TupleOf(f).value;
            t.src.V4? && t.dst.V4? && (Sent(d).Some? ==> CleanRewrite(f, Sent(d).value, Translated(t, r)))
  {
    var r := Classify(hash, s, TupleOf(f).value).rewrite;
    var t := TupleOf(f).value;
    RewriteIsClean(f, r);
    var g := Forwarded(hash, s, f);
    hide Classify, InBounds, Rewritten, WellFormed, ParseIpv4, CleanRewrite, Forwards, TupleOf, Translated, Step;
    if Sent(d).Some? {
      SentKeeps(hash, node, Step(hash, s, Packet(f)), g, d);
      AddressedIsClean(f, g, Sent(d).value, Translated(t, r));
    }
  }

  /** Forwarding changes nothing but the destination MAC. */
  lemma SentKeeps(hash: FlowHash, node: u32, s: State, g: seq<byte>, d: Decision)
    requires Forwards(hash, node, s, g, d) && Sent(d).Some?
    ensures |Sent(d).value| == |g| && forall i :: 6 <= i < |g| ==> Sent(d).value[i] == g[i]
  {
    hide ParseIpv4, ForwardTuple, LookupResult, LookupPanics;
  }

  /** The request leg: a packet of a new flow to a usable service is sent, if at all,
      to the chosen backend with everything else intact, and its flow is pinned. */
  lemma RequestLeg(hash: FlowHash, node: u32, s: State, f: seq<byte>, d: Decision)
    requires WellFormed(f) && TupleOf(f).Some? && Opens(hash, s, TupleOf(f).value).Some?
    ensures NatInBounds(hash, s, f)
    ensures var t := TupleOf(f).value;
            var reply := Opens(hash, s, t).value;
            && Pinned(Step(hash, s, Packet(f)), reply, t)
            && (Decides(hash, node, s, f, d) && Sent(d).Some? ==> CleanRewrite(f, Sent(d).value, reply.Reverse()))
  {
    var t := TupleOf(f).value;
    var reply := Opens(hash, s, t).value;
    RewriteIsClean(f, Classify(hash, s, t).rewrite);
    if Decides(hash, node, s, f, d) { SentIsClean(hash, node, s, f, d); }
  }

  /** The NAT round trip. A request with tuple t opens a flow to a backend. Then, through
      any later packets, table updates and flushes that neither give another flow the same
      reply tuple nor take the flow or another one with it, every frame from the backend
      back to the client (the tuple delivered, reversed) leaves with exactly t reversed: its
      source is the service address and port the client had called. Only MAC, addresses,
      ports and checksums differ from the frame received, and both checksums verify. */
  lemma NatRoundTrip(hash: FlowHash, node: u32, s: State, req: seq<byte>, delivered: Decision,
                     evs: seq<Event>, rep: seq<byte>, returned: Decision)
    requires WellFormed(req) && TupleOf(req).Some? && Opens(hash, s, TupleOf(req).value).Some?
    requires Decides(hash, node, s, req, delivered) && Sent(delivered).Some?
    requires WellFormed(rep) && TupleOf(Sent(delivered).value).Some?
    requires TupleOf(rep) == Some(TupleOf(Sent(delivered).value).value.Reverse())
    requires Undisturbed(hash, Step(hash, s, Packet(req)), evs, TupleOf(rep).value, TupleOf(req).value)
    ensures var later := Run(hash, Step(hash, s, Packet(req)), evs);
            && NatInBounds(hash, later, rep)
            && (Decides(hash, node, later, rep, returned) && Sent(returned).Some? ==>
                  CleanRewrite(rep, Sent(returned).value, TupleOf(req).value.Reverse()))
  {
    var t := TupleOf(req).value;
    RequestLeg(hash, node, s, req, delivered);
    var reply := Opens(hash, s, t).value;
    assert TupleOf(rep).value == reply;
    var later := Run(hash, Step(hash, s, Packet(req)), evs);
    PinnedKept(hash, Step(hash, s, Packet(req)), evs, reply, t);
    RewriteIsClean(rep, Rewrite(Some(t.dst.v4), None, Some(t.dstPort), None));
    if Decides(hash, node, later, rep, returned) { SentIsClean(hash, node, later, rep, returned); }
  }

  /** The lookup for this flow can only return `r`, and there is a way along it. */
  ghost predicate Reaches(hash: FlowHash, node: u32, s: State, t: FlowTuple, r: Route)
  {
    && LookupResult(s.routes, t.dst, hash(t), Some(r)) && !LookupPanics(s.routes, t.dst)
    && (forall other :: LookupResult(s.routes, t.dst, hash(t), other) ==> other == Some(r))
    && (r.nextHop.Local? || (r.nextHop.Remote? && (node, r.nextHop.node) in s.tunnels))
  }

  /** A frame that is translated is sent whenever its translated flow has a way. */
  lemma TranslatedIsSent(hash: FlowHash, node: u32, s: State, f: seq<byte>, r: Route, d: Decision)
    requires WellFormed(f) && TupleOf(f).Some? && Classify(hash, s, TupleOf(f).value).Translate?
    requires TupleOf(f).value.src.V4? && TupleOf(f).value.dst.V4?
    requires Decides(hash, node, s, f, d)
    requires var t := Translated(TupleOf(f).value, Classify(hash, s, TupleOf(f).value).rewrite);
             Reaches(hash, node, Step(hash, s, Packet(f)), t, r)
    ensures NatInBounds(hash, s, f) && Sent(d).Some?
    ensures SentAlong(node, Step(hash, s, Packet(f)), r.nextHop, Forwarded(hash, s, f), d)
  {
    RewriteIsClean(f, Classify(hash, s, TupleOf(f).value).rewrite);
    var g := Forwarded(hash, s, f);
    hide Classify, InBounds, Rewritten, WellFormed, ParseIpv4, Step, HeaderVerifies, SegmentVerifies;
    TupleIsForwards(g);
    ForwardsOneWay(hash, node, Step(hash, s, Packet(f)), g, r, d);
  }

  lemma TupleIsForwards(f: seq<byte>)
    requires TupleOf(f).Some?
    ensures ParseIpv4(f).Some? && |f| >= 34 && ForwardTuple(f) == TupleOf(f).value
  {
  }

  /** So with a way to the backend and, later, a way to the client both legs are sent. */
  lemma NatRoundTripSent(hash: FlowHash, node: u32, s: State, req: seq<byte>, delivered: Decision, there: Route,
                         evs: seq<Event>, rep: seq<byte>, returned: Decision, back: Route)
    requires WellFormed(req) && TupleOf(req).Some? && Opens(hash, s, TupleOf(req).value).Some?
    requires Decides(hash, node, s, req, delivered)
    requires var reply := Opens(hash, s, TupleOf(req).value).value;
             && Reaches(hash, node, Step(hash, s, Packet(req)), reply.Reverse(), there)
             && WellFormed(rep) && TupleOf(rep) == Some(reply)
             && Undisturbed(hash, Step(hash, s, Packet(req)), evs, reply, TupleOf(req).value)
    requires var later := Run(hash, Step(hash, s, Packet(req)), evs);
             && Decides(hash, node, later, rep, returned)
             && Reaches(hash, node, Step(hash, later, Packet(rep)), TupleOf(req).value.Reverse(), back)
    ensures var t, reply := TupleOf(req).value, Opens(hash, s, TupleOf(req).value).value;
            && Sent(delivered).Some? && CleanRewrite(req, Sent(delivered).value, reply.Reverse())
            && Sent(returned).Some? && CleanRewrite(rep, Sent(returned).value, t.Reverse())
  {
    var t, reply := TupleOf(req).value, Opens(hash, s, TupleOf(req).value).value;
    var later := Run(hash, Step(hash, s, Packet(req)), evs);
    OpensTranslates(hash, s, t);
    RequestLeg(hash, node, s, req, delivered);
    RewriteIsClean(req, Classify(hash, s, t).rewrite);
    TranslatedIsSent(hash, node, s, req, there, delivered);
    PinnedKept(hash, Step(hash, s, Packet(req)), evs, reply, t);
    PinnedTranslates(hash, later, reply, t);
    hide Classify, Opens, Step, Decides, Reaches, CleanRewrite, WellFormed, Undisturbed, Pinned;
    RewriteIsClean(rep, Classify(hash, later, reply).rewrite);
    TranslatedIsSent(hash, node, later, rep, back, returned);
    SentIsClean(hash, node, later, rep, returned);
  }

  lemma OpensTranslates(hash: FlowHash, s: State, t: FlowTuple)
    requires Opens(hash, s, t).Some? && t.src.V4? && t.dst.V4?
    ensures Classify(hash, s, t).Translate?
    ensures Translated(t, Classify(hash, s, t).rewrite) == Opens(hash, s, t).value.Reverse()
  {
  }

  lemma PinnedTranslates(hash: FlowHash, s: State, reply: FlowTuple, t: FlowTuple)
    requires Pinned(s, reply, t) && t.dst.V4? && reply.src.V4?
    requires reply.dst == t.src && reply.dstPort == t.srcPort && reply.protocol == t.protocol && t.src.V4?
    ensures Classify(hash, s, reply).Translate?
    ensures Translated(reply, Classify(hash, s, reply).rewrite) == t.Reverse()
  {
  }
}
