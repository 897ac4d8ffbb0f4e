/** The state of the software dataplane and its NAT bookkeeping on flow tuples: which
    rewrite a packet gets, what the two conntrack tables become, and what holds of the
    tables over whole runs. */
module Conntrack {
  import opened Bytes
  import opened Net
  import opened Frame
  import opened Routing

  datatype Nat =
    | Source(address: IpAddr)
    | Destination(address: IpAddr, port: Option<u16>)
    | Masquerade

  datatype Backend = Backend(endpoint: u32, port: u16, translation: Nat)

  datatype Frontend = Frontend(address: IpAddr, port: u16, protocol: IpProto)

  datatype ConnState = New | Established | Closing | Closed

  datatype Entry = Entry(original: FlowTuple, reply: FlowTuple, state: ConnState)

  datatype Tunnel = Tunnel(remote: IpAddr, vni: u32)

  type Mac = m: seq<byte> | |m| == 6 witness [0, 0, 0, 0, 0, 0]

  datatype State = State(
    interfaces: map<u32, Option<Mac>>,
    endpoints: map<u32, set<IpAddr>>,
    routes: Routes,
    tunnels: map<(u32, u32), Tunnel>,
    services: map<Frontend, seq<Backend>>,
    conntrack: map<FlowTuple, Entry>,
    replyIndex: map<FlowTuple, FlowTuple>)

  /** The deterministic hash of a flow, otherwise unknown. */
  type FlowHash = FlowTuple -> u64

  function FrontendOf(t: FlowTuple): Frontend { Frontend(t.dst, t.dstPort, t.protocol) }

  function SelectBackend(hash: FlowHash, backends: seq<Backend>, t: FlowTuple): Option<Backend>
  {
    if backends == [] then None else Some(backends[hash(t) % |backends|])
  }

  /** The tuple replies to `t` will carry once `t` is sent to its backend; `None` when
      there is no backend or its NAT is not an IPv4 destination NAT. */
  function ReplyFor(hash: FlowHash, backends: seq<Backend>, t: FlowTuple): (r: Option<FlowTuple>)
    ensures r.Some? ==> r.value.dst == t.src && r.value.dstPort == t.srcPort && r.value.protocol == t.protocol
  {
    match SelectBackend(hash, backends, t)
    case Some(Backend(_, port, Destination(V4(addr), natPort))) =>
      Some(FlowTuple(V4(addr), Or(natPort, port), t.src, t.srcPort, t.protocol))
    case _ => None
  }

  datatype Action = Drop | Pass | Translate(rewrite: Rewrite)

  /** Steps 1 and 2 of `decide`: return traffic of a known flow first, then a service
      frontend, else plain forwarding. */
  function Classify(hash: FlowHash, s: State, t: FlowTuple): Action
  {
    if t in s.replyIndex then
      var original := s.replyIndex[t];
      if original in s.conntrack && s.conntrack[original].original.dst.V4? then
        var o := s.conntrack[original].original;
        Translate(Rewrite(Some(o.dst.v4), None, Some(o.dstPort), None))
      else Pass
    else if FrontendOf(t) in s.services then
      match ReplyFor(hash, s.services[FrontendOf(t)], t)
      case Some(FlowTuple(V4(addr), port, _, _, _)) => Translate(Rewrite(None, Some(addr), None, Some(port)))
      case _ => Drop
    else Pass
  }

  /** The reply tuple recorded when `t` arrives in `s`, if `t` opens or re-opens a flow. */
  function Opens(hash: FlowHash, s: State, t: FlowTuple): Option<FlowTuple>
  {
    if t !in s.replyIndex && FrontendOf(t) in s.services then ReplyFor(hash, s.services[FrontendOf(t)], t) else None
  }

  /** The conntrack tables after a packet with tuple `t`. */
  function Track(hash: FlowHash, s: State, t: FlowTuple): State
  {
    if t in s.replyIndex then
      var original := s.replyIndex[t];
      if original in s.conntrack && s.conntrack[original].state == New then
        s.(conntrack := s.conntrack[original := s.conntrack[original].(state := Established)])
      else s
    else
      match Opens(hash, s, t)
      case None => s
      case Some(reply) =>
        s.(conntrack := s.conntrack[t := Entry(t, reply, New)], replyIndex := s.replyIndex[reply := t])
  }

  predicate Stale(addrs: set<IpAddr>, e: Entry) { e.original.src in addrs || e.reply.src in addrs }

  function StaleKeys(s: State, addrs: set<IpAddr>): set<FlowTuple>
  {
    set o | o in s.conntrack && Stale(addrs, s.conntrack[o]) :: s.conntrack[o].original
  }

  /** Both tables without the flows `keys`. */
  function Without(s: State, keys: set<FlowTuple>): State
  {
    s.(conntrack := s.conntrack - keys,
       replyIndex := s.replyIndex - set k | k in keys && k in s.conntrack :: s.conntrack[k].reply)
  }

  function Flush(s: State, endpoint: u32): State
  {
    if endpoint in s.endpoints then Without(s, StaleKeys(s, s.endpoints[endpoint])) else s
  }

  // ------------------------------------------------------------------ runs

  /** Everything that changes the dataplane state. */
  datatype Event =
    | Packet(frame: seq<byte>)
    | AddService(frontend: Frontend, backends: seq<Backend>)
    | RemoveService(frontend: Frontend)
    | AddEndpoint(endpoint: u32, addresses: set<IpAddr>)
    | RemoveEndpoint(endpoint: u32)
    | AddRoute(route: Route)
    | RemoveRoute(dst: IpNet, hop: NextHop)
    | AddInterface(iface: u32, mac: Option<Mac>)
    | RemoveInterface(iface: u32)
    | AddTunnel(nodes: (u32, u32), tunnel: Tunnel)
    | RemoveTunnel(nodes: (u32, u32))
    | FlushConntrack(endpoint: u32)

  /** The flow tuple `decide` sees in a frame; `None` for a frame it drops unread. */
  function TupleOf(frame: seq<byte>): Option<FlowTuple>
  {
    match ParseIpv4(frame)
    case None => None
    case Some(ip) =>
      match ProtoFromByte(ip.protocol)
      case None => None
      case Some(protocol) =>
        var ports := if protocol.Icmp? then (0, 0) else Or(ParsePorts(frame, ETH_HDR_LEN + ip.ihl), (0, 0));
        Some(FlowTuple(V4(ip.src), ports.0, V4(ip.dst), ports.1, protocol))
  }

  function Step(hash: FlowHash, s: State, ev: Event): State
  {
    match ev
    case Packet(frame) => if TupleOf(frame).Some? then Track(hash, s, TupleOf(frame).value) else s
    case AddService(f, backends) => s.(services := s.services[f := backends])
    case RemoveService(f) => s.(services := s.services - {f})
    case AddEndpoint(e, addrs) => s.(endpoints := s.endpoints[e := addrs])
    case RemoveEndpoint(e) => s.(endpoints := s.endpoints - {e})
    case AddRoute(route) => s.(routes := Routing.AddRoute(s.routes, route))
    case RemoveRoute(dst, hop) => s.(routes := Routing.RemoveRoute(s.routes, dst, hop))
    case AddInterface(i, mac) => s.(interfaces := s.interfaces[i := mac])
    case RemoveInterface(i) => s.(interfaces := s.interfaces - {i})
    case AddTunnel(nodes, tunnel) => s.(tunnels := s.tunnels[nodes := tunnel])
    case RemoveTunnel(nodes) => s.(tunnels := s.tunnels - {nodes})
    case FlushConntrack(e) => Flush(s, e)
  }

  function Run(hash: FlowHash, s: State, evs: seq<Event>): State
    decreases |evs|
  {
    if evs == [] then s else Run(hash, Step(hash, s, evs[0]), evs[1..])
  }

  const EMPTY := State(map[], map[], map[], map[], map[], map[], map[])

  lemma RoutesStep(hash: FlowHash, s: State, ev: Event)
    requires TableInv(s.routes)
    ensures TableInv(Step(hash, s, ev).routes)
  {
    if ev.AddRoute? {
      AddRouteUpserts(s.routes, ev.route);
    } else if ev.RemoveRoute? {
      RemoveRouteExact(s.routes, ev.dst, ev.hop);
    } else {
      assert Step(hash, s, ev).routes == s.routes;
    }
  }

  /** In every run the route table keeps its invariant. */
  lemma {:induction false} RoutesKept(hash: FlowHash, s: State, evs: seq<Event>)
    requires TableInv(s.routes)
    ensures TableInv(Run(hash, s, evs).routes)
    decreases |evs|
  {
    if evs != [] {
      RoutesStep(hash, s, evs[0]);
      RoutesKept(hash, Step(hash, s, evs[0]), evs[1..]);
    }
  }

  // ------------------------------------------------------------------ index agreement

  /** Each entry is stored under its own original tuple. */
  ghost predicate KeyedByOriginal(s: State)
  {
    forall o :: o in s.conntrack ==> s.conntrack[o].original == o
  }

  /** Each pair r -> o of the reply index has an entry at o whose reply is r, and each
      entry's reply is indexed. */
  ghost predicate IndexAgrees(s: State)
  {
    && (forall r :: r in s.replyIndex ==>
          s.replyIndex[r] in s.conntrack && s.conntrack[s.replyIndex[r]].reply == r)
    && (forall o :: o in s.conntrack ==> s.conntrack[o].reply in s.replyIndex)
  }

  /** Entries were recorded from the backend lists `lists`. */
  ghost predicate FromLists(hash: FlowHash, lists: map<Frontend, seq<Backend>>, s: State)
  {
    && (forall f :: f in s.services ==> f in lists && lists[f] == s.services[f])
    && forall o :: o in s.conntrack ==>
         FrontendOf(o) in lists && ReplyFor(hash, lists[FrontendOf(o)], o) == Some(s.conntrack[o].reply)
  }

  ghost predicate TablesAgree(hash: FlowHash, lists: map<Frontend, seq<Backend>>, s: State)
  {
    KeyedByOriginal(s) && IndexAgrees(s) && FromLists(hash, lists, s)
  }

  /** Every service added in the run has the one backend list `lists` gives its frontend. */
  ghost predicate OneListEach(lists: map<Frontend, seq<Backend>>, evs: seq<Event>)
  {
    forall i :: 0 <= i < |evs| && evs[i].AddService? ==>
      evs[i].frontend in lists && lists[evs[i].frontend] == evs[i].backends
  }

  /** Recording a flow keeps agreement: a pair that already led to `t` was recorded
      from the same backend list, so it is the same pair. */
  lemma OpenAgrees(hash: FlowHash, lists: map<Frontend, seq<Backend>>, s: State, t: FlowTuple, reply: FlowTuple)
    requires TablesAgree(hash, lists, s)
    requires FrontendOf(t) in lists && ReplyFor(hash, lists[FrontendOf(t)], t) == Some(reply)
    ensures TablesAgree(hash, lists,
              s.(conntrack := s.conntrack[t := Entry(t, reply, New)], replyIndex := s.replyIndex[reply := t]))
  {
    hide ReplyFor;
    assert t in s.conntrack ==> s.conntrack[t].reply == reply;
    assert forall r :: r in s.replyIndex && s.replyIndex[r] == t ==> r == reply;
    OpenKeepsIndex(s, t, reply);
    hide IndexAgrees, FrontendOf;
  }

  /** Recording a flow no other tuple leads to. */
  lemma OpenKeepsIndex(s: State, t: FlowTuple, reply: FlowTuple)
    requires IndexAgrees(s)
    requires forall r :: r in s.replyIndex && s.replyIndex[r] == t ==> r == reply
    ensures IndexAgrees(s.(conntrack := s.conntrack[t := Entry(t, reply, New)], replyIndex := s.replyIndex[reply := t]))
  {
  }

  lemma TouchKeepsIndex(s: State, o: FlowTuple, c: ConnState)
    requires IndexAgrees(s) && o in s.conntrack
    ensures IndexAgrees(s.(conntrack := s.conntrack[o := s.conntrack[o].(state := c)]))
  {
  }

  /** Moving an entry to another connection state keeps agreement. */
  lemma TouchAgrees(hash: FlowHash, lists: map<Frontend, seq<Backend>>, s: State, o: FlowTuple, c: ConnState)
    requires TablesAgree(hash, lists, s) && o in s.conntrack
    ensures TablesAgree(hash, lists, s.(conntrack := s.conntrack[o := s.conntrack[o].(state := c)]))
  {
    hide ReplyFor;
    TouchKeepsIndex(s, o, c);
    hide IndexAgrees;
  }

  lemma TrackAgrees(hash: FlowHash, lists: map<Frontend, seq<Backend>>, s: State, t: FlowTuple)
    requires TablesAgree(hash, lists, s)
    ensures TablesAgree(hash, lists, Track(hash, s, t))
  {
    if t in s.replyIndex {
      TouchAgrees(hash, lists, s, s.replyIndex[t], Established);
    } else if Opens(hash, s, t).Some? {
      OpenAgrees(hash, lists, s, t, Opens(hash, s, t).value);
    }
  }

  lemma FlushAgrees(hash: FlowHash, lists: map<Frontend, seq<Backend>>, s: State, endpoint: u32)
    requires TablesAgree(hash, lists, s)
    ensures TablesAgree(hash, lists, Flush(s, endpoint))
  {
    FlushKeepsAgreement(s, endpoint);
    hide IndexAgrees, ReplyFor;
  }

  lemma AgreesStep(hash: FlowHash, lists: map<Frontend, seq<Backend>>, s: State, ev: Event)
    requires TablesAgree(hash, lists, s)
    requires ev.AddService? ==> ev.frontend in lists && lists[ev.frontend] == ev.backends
    ensures TablesAgree(hash, lists, Step(hash, s, ev))
  {
    if ev.Packet? {
      if TupleOf(ev.frame).Some? { TrackAgrees(hash, lists, s, TupleOf(ev.frame).value); }
    } else if ev.FlushConntrack? {
      FlushAgrees(hash, lists, s, ev.endpoint);
    } else {
      var after := Step(hash, s, ev);
      assert after.conntrack == s.conntrack && after.replyIndex == s.replyIndex;
    }
  }

  /** Agreement over every run in which each frontend keeps one backend list. */
  lemma {:induction false} AgreementKept(hash: FlowHash, lists: map<Frontend, seq<Backend>>, s: State, evs: seq<Event>)
    requires TablesAgree(hash, lists, s) && OneListEach(lists, evs)
    ensures TablesAgree(hash, lists, Run(hash, s, evs))
    decreases |evs|
  {
    if evs != [] {
      AgreesStep(hash, lists, s, evs[0]);
      assert OneListEach(lists, evs[1..]);
      AgreementKept(hash, lists, Step(hash, s, evs[0]), evs[1..]);
    }
  }

  lemma KeyedStep(hash: FlowHash, s: State, ev: Event)
    requires KeyedByOriginal(s)
    ensures KeyedByOriginal(Step(hash, s, ev))
  {
    if !ev.Packet? && !ev.FlushConntrack? {
      assert Step(hash, s, ev).conntrack == s.conntrack;
    }
  }

  /** The keying holds in every run, whatever happens to the services. */
  lemma {:induction false} KeyedKept(hash: FlowHash, s: State, evs: seq<Event>)
    requires KeyedByOriginal(s)
    ensures KeyedByOriginal(Run(hash, s, evs))
    decreases |evs|
  {
    if evs != [] {
      KeyedStep(hash, s, evs[0]);
      KeyedKept(hash, Step(hash, s, evs[0]), evs[1..]);
    }
  }

  // ------------------------------------------------------------------ the packet that breaks agreement

  /** A packet that gives a recorded flow another reply tuple, while the old one still
      leads to the flow: its service has changed the backend in between. */
  ghost predicate Reroutes(hash: FlowHash, s: State, t: FlowTuple)
  {
    && Opens(hash, s, t).Some? && t in s.conntrack && s.conntrack[t].reply != Opens(hash, s, t).value
    && s.conntrack[t].reply in s.replyIndex && s.replyIndex[s.conntrack[t].reply] == t
  }

  /** Replies go back to where the flow came from. */
  ghost predicate RepliesReturn(s: State)
  {
    forall o :: o in s.conntrack ==> s.conntrack[o].reply.dst == o.src
  }

  /** Exactly such a packet breaks the agreement of the two tables. */
  lemma AgreesUnlessReroutes(hash: FlowHash, s: State, t: FlowTuple)
    requires KeyedByOriginal(s) && IndexAgrees(s)
    ensures IndexAgrees(Track(hash, s, t)) <==> !Reroutes(hash, s, t)
  {
    hide Opens;
    var after := Track(hash, s, t);
    if t in s.replyIndex {
      OpensNew(hash, s, t);
      TouchKeepsIndex(s, s.replyIndex[t], Established);
      hide IndexAgrees;
    } else if Reroutes(hash, s, t) {
      var r := s.conntrack[t].reply;
      assert r in after.replyIndex && after.replyIndex[r] == t && after.conntrack[t].reply != r;
    } else if Opens(hash, s, t).Some? {
      assert forall r :: r in s.replyIndex && s.replyIndex[r] == t ==> r == s.conntrack[t].reply;
      OpenKeepsIndex(s, t, Opens(hash, s, t).value);
      hide IndexAgrees;
    }
  }

  lemma OpensNew(hash: FlowHash, s: State, t: FlowTuple)
    ensures Opens(hash, s, t).Some? ==> t !in s.replyIndex && Opens(hash, s, t).value.dst == t.src
  {
    hide ReplyFor;
  }

  lemma RepliesReturnStep(hash: FlowHash, s: State, ev: Event)
    requires RepliesReturn(s)
    ensures RepliesReturn(Step(hash, s, ev))
  {
    if ev.Packet? && TupleOf(ev.frame).Some? { OpensNew(hash, s, TupleOf(ev.frame).value); }
    hide Opens, TupleOf;
    if !ev.Packet? && !ev.FlushConntrack? {
      assert Step(hash, s, ev).conntrack == s.conntrack;
    }
  }

  /** A flush never breaks it: two entries with one reply are both stale or both kept, so it
      does not take the index pair of a flow it keeps. */
  lemma FlushKeepsAgreement(s: State, endpoint: u32)
    requires KeyedByOriginal(s) && RepliesReturn(s) && IndexAgrees(s)
    ensures IndexAgrees(Flush(s, endpoint))
  {
    if endpoint in s.endpoints {
      var addrs := s.endpoints[endpoint];
      var keys := StaleKeys(s, addrs);
      assert forall o :: o in keys <==> o in s.conntrack && Stale(addrs, s.conntrack[o]);
      forall o, o' | o in s.conntrack && o' in s.conntrack && s.conntrack[o].reply == s.conntrack[o'].reply
        ensures o in keys <==> o' in keys
      {
        assert o.src == s.conntrack[o].reply.dst && o'.src == s.conntrack[o'].reply.dst;
      }
    }
  }

  ghost predicate EventReroutes(hash: FlowHash, s: State, ev: Event)
  {
    ev.Packet? && TupleOf(ev.frame).Some? && Reroutes(hash, s, TupleOf(ev.frame).value)
  }

  lemma EventAgreesIff(hash: FlowHash, s: State, ev: Event)
    requires KeyedByOriginal(s) && RepliesReturn(s) && IndexAgrees(s)
    ensures IndexAgrees(Step(hash, s, ev)) <==> !EventReroutes(hash, s, ev)
  {
    if ev.Packet? {
      hide Track, Reroutes, TupleOf, IndexAgrees;
      if TupleOf(ev.frame).Some? { AgreesUnlessReroutes(hash, s, TupleOf(ev.frame).value); }
    } else if ev.FlushConntrack? {
      hide Flush, IndexAgrees;
      FlushKeepsAgreement(s, ev.endpoint);
    } else {
      TablesUntouched(hash, s, ev);
      hide Step;
    }
  }

  lemma TablesUntouched(hash: FlowHash, s: State, ev: Event)
    requires !ev.Packet? && !ev.FlushConntrack?
    ensures var after := Step(hash, s, ev); after.conntrack == s.conntrack && after.replyIndex == s.replyIndex
  {
  }

  ghost predicate NeverReroutes(hash: FlowHash, s: State, evs: seq<Event>)
    decreases |evs|
  {
    evs == [] || (!EventReroutes(hash, s, evs[0]) && NeverReroutes(hash, Step(hash, s, evs[0]), evs[1..]))
  }

  /** One backend list per frontend excludes it. */
  lemma {:induction false} OneListNeverReroutes(hash: FlowHash, lists: map<Frontend, seq<Backend>>, s: State,
      evs: seq<Event>)
    requires TablesAgree(hash, lists, s) && OneListEach(lists, evs)
    ensures NeverReroutes(hash, s, evs)
    decreases |evs|
  {
    if evs != [] {
      AgreesStep(hash, lists, s, evs[0]);
      assert !EventReroutes(hash, s, evs[0]) by { hide ReplyFor, TupleOf; }
      assert OneListEach(lists, evs[1..]);
      OneListNeverReroutes(hash, lists, Step(hash, s, evs[0]), evs[1..]);
    }
  }

  /** Over runs: the tables agree after every event exactly when no packet reroutes a
      recorded flow. */
  lemma {:induction false} AgreementIff(hash: FlowHash, s: State, evs: seq<Event>)
    requires KeyedByOriginal(s) && RepliesReturn(s) && IndexAgrees(s)
    ensures NeverReroutes(hash, s, evs) <==> forall k :: 0 <= k <= |evs| ==> IndexAgrees(Run(hash, s, evs[..k]))
    decreases |evs|
  {
    hide Step, EventReroutes, IndexAgrees, KeyedByOriginal, RepliesReturn;
    if evs != [] {
      var s1 := Step(hash, s, evs[0]);
      EventAgreesIff(hash, s, evs[0]);
      KeyedStep(hash, s, evs[0]);
      RepliesReturnStep(hash, s, evs[0]);
      assert evs[..1][1..] == [];
      assert Run(hash, s, evs[..1]) == s1;
      forall k | 0 < k <= |evs| ensures Run(hash, s, evs[..k]) == Run(hash, s1, evs[1..][..k - 1]) {
        assert evs[..k][1..] == evs[1..][..k - 1];
      }
      if IndexAgrees(s1) {
        AgreementIff(hash, s1, evs[1..]);
        if forall k :: 0 <= k <= |evs| ==> IndexAgrees(Run(hash, s, evs[..k])) {
          forall k | 0 <= k <= |evs[1..]| ensures IndexAgrees(Run(hash, s1, evs[1..][..k])) {
            assert Run(hash, s, evs[..k + 1]) == Run(hash, s1, evs[1..][..k + 1 - 1]);
          }
        }
      }
    }
  }

  ghost predicate Mentions(addrs: set<IpAddr>, s: State)
  {
    exists o :: o in s.conntrack && Stale(addrs, s.conntrack[o])
  }

  ghost predicate Dangles(s: State)
  {
    exists r :: r in s.replyIndex && s.replyIndex[r] !in s.conntrack
  }

  /** A flush, entry by entry: those whose client or backend is an address of the endpoint
      go, with their reply tuples. */
  lemma FlushSpelledOut(s: State, endpoint: u32)
    requires KeyedByOriginal(s)
    ensures endpoint !in s.endpoints ==> Flush(s, endpoint) == s
    ensures endpoint in s.endpoints ==>
              var addrs, after := s.endpoints[endpoint], Flush(s, endpoint);
              && after == s.(conntrack := after.conntrack, replyIndex := after.replyIndex)
              && (forall o :: o in after.conntrack <==>
                    o in s.conntrack && o.src !in addrs && s.conntrack[o].reply.src !in addrs)
              && (forall o :: o in after.conntrack ==> after.conntrack[o] == s.conntrack[o])
              && (forall r :: r in after.replyIndex <==>
                    r in s.replyIndex
                    && forall o :: o in s.conntrack && (o.src in addrs || s.conntrack[o].reply.src in addrs) ==>
                         s.conntrack[o].reply != r)
              && (forall r :: r in after.replyIndex ==> after.replyIndex[r] == s.replyIndex[r])
  {
    if endpoint in s.endpoints {
      var addrs := s.endpoints[endpoint];
      var keys := StaleKeys(s, addrs);
      assert forall o :: o in keys <==> o in s.conntrack && Stale(addrs, s.conntrack[o]);
      var gone := set k | k in keys && k in s.conntrack :: s.conntrack[k].reply;
      forall r ensures r in gone <==>
          exists o :: o in s.conntrack && (o.src in addrs || s.conntrack[o].reply.src in addrs)
              && s.conntrack[o].reply == r
      {
        if o :| o in s.conntrack && (o.src in addrs || s.conntrack[o].reply.src in addrs) && s.conntrack[o].reply == r {
          assert o in keys;
        }
      }
    }
  }

  /** The other updates: each sets or removes one entry of one table. */
  lemma UpdatesSpelledOut(hash: FlowHash, s: State, ev: Event)
    requires !ev.Packet? && !ev.FlushConntrack?
    ensures var after := Step(hash, s, ev);
            match ev
            case AddService(f, backends) => after == s.(services := s.services[f := backends])
            case RemoveService(f) => after == s.(services := s.services - {f})
            case AddEndpoint(e, addrs) => after == s.(endpoints := s.endpoints[e := addrs])
            case RemoveEndpoint(e) => after == s.(endpoints := s.endpoints - {e})
            case AddInterface(i, mac) => after == s.(interfaces := s.interfaces[i := mac])
            case RemoveInterface(i) => after == s.(interfaces := s.interfaces - {i})
            case AddTunnel(nodes, tunnel) => after == s.(tunnels := s.tunnels[nodes := tunnel])
            case RemoveTunnel(nodes) => after == s.(tunnels := s.tunnels - {nodes})
            case AddRoute(route) => after == s.(routes := Routing.AddRoute(s.routes, route))
            case RemoveRoute(dst, hop) => after == s.(routes := Routing.RemoveRoute(s.routes, dst, hop))
            case _ => true
  {
  }

  /** After a flush no entry mentions the endpoint, and none but its entries are gone. */
  lemma FlushRemovesExactly(s: State, endpoint: u32)
    requires KeyedByOriginal(s) && endpoint in s.endpoints
    ensures var addrs, after := s.endpoints[endpoint], Flush(s, endpoint);
            && !Mentions(addrs, after)
            && forall o :: o in after.conntrack <==> o in s.conntrack && !Stale(addrs, s.conntrack[o])
  {
    var addrs := s.endpoints[endpoint];
    assert forall o :: o in StaleKeys(s, addrs) <==> o in s.conntrack && Stale(addrs, s.conntrack[o]);
  }

  /** A flush leaves a dangling pair exactly when some pair already dangled, or pointed
      at a flow of the endpoint under a tuple that no flow of the endpoint replies with
      any more. */
  lemma FlushDanglesIff(s: State, endpoint: u32)
    requires KeyedByOriginal(s) && endpoint in s.endpoints
    ensures var keys := StaleKeys(s, s.endpoints[endpoint]);
            Dangles(Flush(s, endpoint)) <==>
            exists r :: r in s.replyIndex
                        && (s.replyIndex[r] !in s.conntrack || s.replyIndex[r] in keys)
                        && forall o :: o in keys && o in s.conntrack ==> s.conntrack[o].reply != r
  {
    var keys := StaleKeys(s, s.endpoints[endpoint]);
    var after := Flush(s, endpoint);
    var gone := set k | k in keys && k in s.conntrack :: s.conntrack[k].reply;
    forall r | r in s.replyIndex
      ensures r in after.replyIndex <==> forall o :: o in keys && o in s.conntrack ==> s.conntrack[o].reply != r
    {
      assert r in after.replyIndex <==> r !in gone;
      if r !in gone {
        forall o | o in keys && o in s.conntrack ensures s.conntrack[o].reply != r {
          assert s.conntrack[o].reply in gone;
        }
      }
    }
  }

  /** A pair that leads to a flow which replies with another tuple by now. */
  ghost predicate Orphan(s: State, r: FlowTuple)
  {
    r in s.replyIndex && s.replyIndex[r] in s.conntrack && s.conntrack[s.replyIndex[r]].reply != r
  }

  /** From tables without a dangling pair, a flush leaves one exactly when it removes the
      flow of an orphan pair and no flow that still replies with that tuple. */
  lemma FlushDanglesByOrphan(s: State, endpoint: u32)
    requires KeyedByOriginal(s) && endpoint in s.endpoints && !Dangles(s)
    ensures var addrs := s.endpoints[endpoint];
            Dangles(Flush(s, endpoint)) <==>
            exists r :: Orphan(s, r) && Stale(addrs, s.conntrack[s.replyIndex[r]])
                        && forall o :: o in s.conntrack && Stale(addrs, s.conntrack[o]) ==> s.conntrack[o].reply != r
  {
    var addrs := s.endpoints[endpoint];
    var keys := StaleKeys(s, addrs);
    assert forall o :: o in keys <==> o in s.conntrack && Stale(addrs, s.conntrack[o]);
    FlushDanglesIff(s, endpoint);
    hide Flush, Without, StaleKeys;
    forall r | r in s.replyIndex ensures s.replyIndex[r] in s.conntrack { assert !Dangles(s); }
  }

  /** Derived for the packet that breaks agreement: the old reply tuple is the one orphan,
      and a later flush leaves it dangling exactly when it takes the flow along but no
      other flow with that reply. */
  lemma DanglesAfterReroute(hash: FlowHash, s: State, t: FlowTuple, endpoint: u32)
    requires KeyedByOriginal(s) && IndexAgrees(s) && Reroutes(hash, s, t) && endpoint in s.endpoints
    ensures var addrs, was, after := s.endpoints[endpoint], s.conntrack[t].reply, Track(hash, s, t);
            && (forall r :: Orphan(after, r) <==> r == was)
            && (Dangles(Flush(after, endpoint)) <==>
                  && (t.src in addrs || Opens(hash, s, t).value.src in addrs)
                  && forall o :: o in after.conntrack && Stale(addrs, after.conntrack[o]) ==>
                       after.conntrack[o].reply != was)
  {
    hide ReplyFor, Flush;
    var after := Track(hash, s, t);
    assert forall r :: r in after.replyIndex ==> after.replyIndex[r] in after.conntrack;
    forall r ensures Orphan(after, r) <==> r == s.conntrack[t].reply {
      if r in s.replyIndex { assert s.conntrack[s.replyIndex[r]].reply == r; }
    }
    assert KeyedByOriginal(after) && !Dangles(after);
    hide Orphan;
    FlushDanglesByOrphan(after, endpoint);
    assert after.endpoints == s.endpoints && after.conntrack[t] == Entry(t, Opens(hash, s, t).value, New);
    assert after.replyIndex[s.conntrack[t].reply] == t;
  }

  /** One backend list per frontend is needed: when a service changes its backend
      between two packets of one flow, the first reply tuple stays in the index, and a
      flush of the client leaves it dangling. */
  lemma ListChangeDangles(hash: FlowHash)
    ensures var client, vip := V4(0x0A00_0001), V4(0x0A00_0064);
            var f := Frontend(vip, 80, Tcp);
            var t := FlowTuple(client, 40000, vip, 80, Tcp);
            var old_ := [Backend(1, 8080, Destination(V4(0x0A00_0002), None))];
            var new_ := [Backend(2, 8080, Destination(V4(0x0A00_0003), None))];
            var s1 := EMPTY.(services := map[f := old_], endpoints := map[7 := {client}]);
            var s2 := Track(hash, s1, t);
            var s3 := Track(hash, s2.(services := map[f := new_]), t);
            Dangles(Flush(s3, 7))
  {
    var client, vip := V4(0x0A00_0001), V4(0x0A00_0064);
    var f := Frontend(vip, 80, Tcp);
    var t := FlowTuple(client, 40000, vip, 80, Tcp);
    var r1 := FlowTuple(V4(0x0A00_0002), 8080, client, 40000, Tcp);
    var s1 := EMPTY.(services := map[f := [Backend(1, 8080, Destination(V4(0x0A00_0002), None))]],
                     endpoints := map[7 := {client}]);
    var s2 := Track(hash, s1, t);
    assert s2.replyIndex == map[r1 := t];
    var s3 := Track(hash, s2.(services := map[f := [Backend(2, 8080, Destination(V4(0x0A00_0003), None))]]), t);
    assert s3.conntrack.Keys == {t} && s3.conntrack[t].reply.src == V4(0x0A00_0003);
    assert r1 in Flush(s3, 7).replyIndex && Flush(s3, 7).replyIndex[r1] == t;
    assert t in StaleKeys(s3, {client});
  }

  // ------------------------------------------------------------------ a flow over a run

  /** The pinned flow: `reply` leads to the entry of `t`. */
  ghost predicate Pinned(s: State, reply: FlowTuple, t: FlowTuple)
  {
    && reply in s.replyIndex && s.replyIndex[reply] == t
    && t in s.conntrack && s.conntrack[t].original == t
  }

  /** A packet of another flow that gets the same reply tuple, or a flush that takes the
      entry or another one with that reply. */
  ghost predicate Disturbs(hash: FlowHash, s: State, ev: Event, reply: FlowTuple, t: FlowTuple)
  {
    match ev
    case Packet(frame) =>
      TupleOf(frame).Some? && TupleOf(frame).value != t && Opens(hash, s, TupleOf(frame).value) == Some(reply)
    case FlushConntrack(e) =>
      e in s.endpoints && exists o :: o in StaleKeys(s, s.endpoints[e]) && (o == t || Replies(s, o, reply))
    case _ => false
  }

  predicate Replies(s: State, o: FlowTuple, reply: FlowTuple) { o in s.conntrack && s.conntrack[o].reply == reply }

  /** In every reachable state: a flush does exactly when the flow's entry, or another one
      with the same reply tuple, mentions one of the endpoint's addresses. */
  lemma FlushDisturbsIff(hash: FlowHash, s: State, e: u32, reply: FlowTuple, t: FlowTuple)
    requires KeyedByOriginal(s) && Pinned(s, reply, t) && e in s.endpoints
    ensures Disturbs(hash, s, FlushConntrack(e), reply, t) <==>
            || Stale(s.endpoints[e], s.conntrack[t])
            || exists o :: Replies(s, o, reply) && Stale(s.endpoints[e], s.conntrack[o])
  {
    var keys := StaleKeys(s, s.endpoints[e]);
    assert forall o :: o in keys <==> o in s.conntrack && Stale(s.endpoints[e], s.conntrack[o]);
    hide StaleKeys, Stale;
    if t in keys { assert t in keys && (t == t || Replies(s, t, reply)); }
    if o :| Replies(s, o, reply) && Stale(s.endpoints[e], s.conntrack[o]) { assert o in keys; }
  }

  ghost predicate Undisturbed(hash: FlowHash, s: State, evs: seq<Event>, reply: FlowTuple, t: FlowTuple)
    decreases |evs|
  {
    evs == [] || (!Disturbs(hash, s, evs[0], reply, t) && Undisturbed(hash, Step(hash, s, evs[0]), evs[1..], reply, t))
  }

  /** Exactly such an event ends the pin. */
  lemma PinnedStepIff(hash: FlowHash, s: State, ev: Event, reply: FlowTuple, t: FlowTuple)
    requires Pinned(s, reply, t)
    ensures Pinned(Step(hash, s, ev), reply, t) <==> !Disturbs(hash, s, ev, reply, t)
  {
    if ev.Packet? {
      if TupleOf(ev.frame).Some? { PinnedTrackIff(hash, s, TupleOf(ev.frame).value, reply, t); }
      hide TupleOf, Track, Opens;
    } else if ev.FlushConntrack? {
      if ev.endpoint in s.endpoints { PinnedFlushIff(s, StaleKeys(s, s.endpoints[ev.endpoint]), reply, t); }
      hide StaleKeys, Without;
    } else {
      TablesUntouched(hash, s, ev);
      hide Step;
    }
  }

  lemma PinnedTrackIff(hash: FlowHash, s: State, u: FlowTuple, reply: FlowTuple, t: FlowTuple)
    requires Pinned(s, reply, t)
    ensures Pinned(Track(hash, s, u), reply, t) <==> !(u != t && Opens(hash, s, u) == Some(reply))
  {
    hide ReplyFor;
  }

  lemma PinnedFlushIff(s: State, keys: set<FlowTuple>, reply: FlowTuple, t: FlowTuple)
    requires Pinned(s, reply, t)
    ensures Pinned(Without(s, keys), reply, t) <==> !exists o :: o in keys && (o == t || Replies(s, o, reply))
  {
    var gone := set k | k in keys && k in s.conntrack :: s.conntrack[k].reply;
    assert reply in gone <==> exists o :: o in keys && Replies(s, o, reply) by {
      if o :| o in keys && Replies(s, o, reply) { assert s.conntrack[o].reply in gone; }
    }
    if t in keys { assert t in keys && (t == t || Replies(s, t, reply)); }
  }

  /** Over runs: the reply tuple leads to the flow after every event exactly when none
      disturbs it. */
  lemma {:induction false} PinnedIff(hash: FlowHash, s: State, evs: seq<Event>, reply: FlowTuple, t: FlowTuple)
    requires Pinned(s, reply, t)
    ensures Undisturbed(hash, s, evs, reply, t) <==>
            forall k :: 0 <= k <= |evs| ==> Pinned(Run(hash, s, evs[..k]), reply, t)
    decreases |evs|
  {
    hide Step, Disturbs, Pinned;
    if evs != [] {
      var s1 := Step(hash, s, evs[0]);
      PinnedStepIff(hash, s, evs[0], reply, t);
      assert evs[..1][1..] == [];
      assert Run(hash, s, evs[..1]) == s1;
      forall k | 0 < k <= |evs| ensures Run(hash, s, evs[..k]) == Run(hash, s1, evs[1..][..k - 1]) {
        assert evs[..k][1..] == evs[1..][..k - 1];
      }
      if Pinned(s1, reply, t) {
        PinnedIff(hash, s1, evs[1..], reply, t);
        if forall k :: 0 <= k <= |evs| ==> Pinned(Run(hash, s, evs[..k]), reply, t) {
          forall k | 0 <= k <= |evs[1..]| ensures Pinned(Run(hash, s1, evs[1..][..k]), reply, t) {
            assert Run(hash, s, evs[..k + 1]) == Run(hash, s1, evs[1..][..k + 1 - 1]);
          }
        }
      }
    }
  }

  lemma PinnedKept(hash: FlowHash, s: State, evs: seq<Event>, reply: FlowTuple, t: FlowTuple)
    requires Pinned(s, reply, t) && Undisturbed(hash, s, evs, reply, t)
    ensures Pinned(Run(hash, s, evs), reply, t)
  {
    PinnedIff(hash, s, evs, reply, t);
    assert evs[..|evs|] == evs;
  }
}
