/** Longest-prefix-match lookup with weighted selection inside a group, and the
    route table updates. */
module Routing {
  import opened Bytes
  import opened Net

  datatype NextHop = Local(iface: u32) | Remote(node: u32) | Gateway(addr: IpAddr) | Blackhole

  datatype Route = Route(destination: IpNet, nextHop: NextHop, weight: byte)

  type Routes = map<IpNet, seq<Route>>

  function Weight(r: Route): (w: nat)
    ensures w > 0
  {
    if r.weight == 0 then 1 else r.weight
  }

  /** Weight of the first `n` routes. */
  function WeightBefore(group: seq<Route>, n: nat): (w: nat)
    requires n <= |group|
    ensures w >= n
  {
    if n == 0 then 0 else WeightBefore(group, n - 1) + Weight(group[n - 1])
  }

  function TotalWeight(group: seq<Route>): nat { WeightBefore(group, |group|) }

  /** Route `i` owns the residues from the weight before it up to its own weight. */
  predicate Owns(group: seq<Route>, i: nat, residue: nat)
  {
    i < |group| && WeightBefore(group, i) <= residue < WeightBefore(group, i + 1)
  }

  lemma {:induction false} WeightBeforeMonotone(group: seq<Route>, i: nat, j: nat)
    requires i <= j <= |group|
    ensures WeightBefore(group, i) + (j - i) <= WeightBefore(group, j)
  {
    if i < j { WeightBeforeMonotone(group, i, j - 1); }
  }

  /** Every residue has exactly one owner. */
  lemma {:induction false} OwnerExists(group: seq<Route>, n: nat, residue: nat) returns (i: nat)
    requires n <= |group| && residue < WeightBefore(group, n)
    ensures i < n && Owns(group, i, residue)
  {
    if residue < WeightBefore(group, n - 1) {
      i := OwnerExists(group, n - 1, residue);
    } else {
      i := n - 1;
    }
  }

  lemma OwnerUnique(group: seq<Route>, i: nat, j: nat, residue: nat)
    requires Owns(group, i, residue) && Owns(group, j, residue)
    ensures i == j
  {
    if i < j { WeightBeforeMonotone(group, i + 1, j); }
    if j < i { WeightBeforeMonotone(group, j + 1, i); }
  }

  /** The residues number the sum of the configured weights, a weight of 0 counting as 1. */
  lemma WeightsAdd(group: seq<Route>, r: Route)
    ensures TotalWeight([]) == 0
    ensures TotalWeight(group + [r]) == TotalWeight(group) + if r.weight == 0 then 1 else r.weight
  {
    WeightOfPrefix(group + [r], |group|);
    assert (group + [r])[..|group|] == group;
  }

  lemma {:induction false} WeightOfPrefix(group: seq<Route>, n: nat)
    requires n <= |group|
    ensures WeightBefore(group, n) == TotalWeight(group[..n])
    decreases n
  {
    if n > 0 {
      WeightOfPrefix(group, n - 1);
      WeightOfPrefix(group[..n], n - 1);
      assert group[..n][..n - 1] == group[..n - 1];
    }
  }

  /** The residues of route `i` start where those of the routes before it end. */
  ghost predicate OwnsStretch(group: seq<Route>, i: nat)
    requires i < |group|
  {
    forall t: nat :: Owns(group, i, t) <==> TotalWeight(group[..i]) <= t < TotalWeight(group[..i + 1])
  }

  lemma OwnedStretch(group: seq<Route>, i: nat)
    requires i < |group|
    ensures OwnsStretch(group, i)
    ensures WeightBefore(group, i) == TotalWeight(group[..i])
            && WeightBefore(group, i + 1) == TotalWeight(group[..i + 1])
  {
    WeightOfPrefix(group, i);
    WeightOfPrefix(group, i + 1);
  }

  /** Route `i` owns the residues between the total weight of the routes before it and
      that total with its own weight: exactly as many as its weight, one for a weight of 0. */
  lemma ShareIsWeight(group: seq<Route>, i: nat)
    requires i < |group|
    ensures OwnsStretch(group, i)
    ensures |set t: nat | t < TotalWeight(group) && Owns(group, i, t)|
            == if group[i].weight == 0 then 1 else group[i].weight
  {
    OwnedStretch(group, i);
    assert group[..i + 1] == group[..i] + [group[i]];
    WeightsAdd(group[..i], group[i]);
    hide TotalWeight, OwnsStretch;
    WeightBeforeMonotone(group, i + 1, |group|);
    assert TotalWeight(group) == WeightBefore(group, |group|) by { TotalIs(group); }
    hide WeightBefore, Weight;
    var owned := set t: nat | t < TotalWeight(group) && Owns(group, i, t);
    assert owned == Interval(WeightBefore(group, i), WeightBefore(group, i + 1) - WeightBefore(group, i));
  }

  lemma TotalIs(group: seq<Route>)
    ensures TotalWeight(group) == WeightBefore(group, |group|)
  {
  }

  function Interval(lo: nat, n: nat): (s: set<nat>)
    ensures |s| == n
    ensures forall t :: t in s <==> lo <= t < lo + n
  {
    if n == 0 then {} else Interval(lo, n - 1) + {lo + n - 1}
  }

  /** A call that may panic, which here is the overflow of the 32-bit weight total. */
  datatype Checked<+T> = Panics | Done(result: T)

  predicate Overflows(group: seq<Route>) { TotalWeight(group) >= 0x1_0000_0000 }

  /** `select_route`: walks the group subtracting weights. The final fallback to the last
      route is never taken: the owner of the residue is always found. */
  method SelectRoute(group: seq<Route>, hash: u64) returns (r: Checked<Option<Route>>)
    ensures r.Panics? <==> TotalWeight(group) >= 0x1_0000_0000
    ensures r.Done? ==> (r.result.None? <==> group == [])
    ensures r.Done? && group != [] ==>
              exists i: nat :: Owns(group, i, hash % TotalWeight(group)) && r.result == Some(group[i])
  {
    if group == [] {
      return Done(None);
    }
    var total: u32 := 0;
    for n := 0 to |group|
      invariant total == WeightBefore(group, n)
    {
      WeightBeforeMonotone(group, n + 1, |group|);
      if total + Weight(group[n]) >= 0x1_0000_0000 {
        return Panics;
      }
      total := total + Weight(group[n]);
    }
    WeightBeforeMonotone(group, 0, |group|);
    var target := hash % total;
    for n := 0 to |group|
      invariant 0 <= target && target + WeightBefore(group, n) == hash % total
    {
      var w := Weight(group[n]);
      if target < w {
        assert Owns(group, n, hash % TotalWeight(group));
        return Done(Some(group[n]));
      }
      target := target - w;
    }
    assert false;  // the fallback to the last route
  }

  /** `net` is a longest match for `dst`. */
  ghost predicate Longest(routes: Routes, dst: IpAddr, net: IpNet)
  {
    && net in routes && net.Contains(dst)
    && forall other :: other in routes && other.Contains(dst) ==> other.PrefixLen() <= net.PrefixLen()
  }

  ghost predicate CanonicalTable(routes: Routes)
  {
    forall net :: net in routes ==> net.Canonical()
  }

  /** Two spellings of one prefix: they differ in host bits at most. */
  predicate SameBlock(n: IpNet, m: IpNet)
  {
    n.Net4? == m.Net4? && n.PrefixLen() == m.PrefixLen() && n.Addr() / n.Block() == m.Addr() / m.Block()
  }

  /** The table has no other spelling of `n`. */
  ghost predicate OneSpelling(routes: Routes, n: IpNet)
  {
    forall m :: m in routes && SameBlock(n, m) ==> m == n
  }

  /** The longest match is unique exactly when the table has one spelling of it. */
  lemma LongestUniqueIff(routes: Routes, dst: IpAddr, n: IpNet)
    requires Longest(routes, dst, n)
    ensures (forall m :: Longest(routes, dst, m) ==> m == n) <==> OneSpelling(routes, n)
  {
    forall m ensures Longest(routes, dst, m) <==> m in routes && SameBlock(n, m) {
      LongestIsSameBlock(routes, dst, n, m);
    }
  }

  lemma LongestIsSameBlock(routes: Routes, dst: IpAddr, n: IpNet, m: IpNet)
    requires Longest(routes, dst, n)
    ensures Longest(routes, dst, m) <==> m in routes && SameBlock(n, m)
  {
    if n.Net4? == m.Net4? && n.PrefixLen() == m.PrefixLen() { assert n.Block() == m.Block(); }
  }

  /** Canonical destinations have one spelling each. */
  lemma CanonicalOneSpelling(routes: Routes, n: IpNet)
    requires CanonicalTable(routes) && n in routes
    ensures OneSpelling(routes, n)
  {
    forall m | m in routes && SameBlock(n, m) ensures m == n {
      assert n.Block() == m.Block();
      SameMultiple(n.Addr(), m.Addr(), n.Block());
    }
  }

  /** So with canonical destinations the longest match is unique, and the result does not
      depend on the order in which the table is walked. */
  lemma LongestUnique(routes: Routes, dst: IpAddr, n: IpNet, m: IpNet)
    requires Longest(routes, dst, n) && Longest(routes, dst, m)
    requires CanonicalTable(routes)
    ensures n == m
  {
    CanonicalOneSpelling(routes, n);
    LongestUniqueIff(routes, dst, n);
  }

  lemma SameMultiple(a: nat, c: nat, b: nat)
    requires b > 0 && a % b == 0 && c % b == 0 && a / b == c / b
    ensures a == c
  {
    assert a == b * (a / b) + a % b;
    assert c == b * (c / b) + c % b;
  }

  ghost predicate WeightsFit(routes: Routes)
  {
    forall net :: net in routes ==> !Overflows(routes[net])
  }

  /** What a lookup may return: the hash owner in a longest-match group. */
  ghost predicate LookupResult(routes: Routes, dst: IpAddr, hash: u64, r: Option<Route>)
  {
    if r.None? then
      (forall net :: net in routes ==> !net.Contains(dst))
      || exists net :: Longest(routes, dst, net) && routes[net] == []
    else
      exists net, i: nat :: FoundIn(routes, dst, hash, net, i, r.value)
  }

  ghost predicate FoundIn(routes: Routes, dst: IpAddr, hash: u64, net: IpNet, i: nat, r: Route)
  {
    && Longest(routes, dst, net) && routes[net] != [] && !Overflows(routes[net])
    && Owns(routes[net], i, hash % TotalWeight(routes[net])) && routes[net][i] == r
  }

  /** The lookup panics in a longest-match group whose weights overflow. */
  ghost predicate LookupPanics(routes: Routes, dst: IpAddr)
  {
    exists net :: Longest(routes, dst, net) && Overflows(routes[net])
  }

  /** `lookup_route`: one pass over the table in arbitrary order. */
  method LookupRoute(routes: Routes, dst: IpAddr, hash: u64) returns (r: Checked<Option<Route>>)
    ensures r.Panics? ==> LookupPanics(routes, dst)
    ensures r.Done? ==> LookupResult(routes, dst, hash, r.result)
  {
    var best: Option<IpNet> := None;
    var rest := routes.Keys;
    while rest != {}
      invariant rest <= routes.Keys
      invariant best.None? ==> forall net :: net in routes.Keys - rest ==> !net.Contains(dst)
      invariant best.Some? ==> best.value in routes && best.value.Contains(dst)
      invariant best.Some? ==> forall net :: net in routes.Keys - rest && net.Contains(dst) ==>
                                        net.PrefixLen() <= best.value.PrefixLen()
      decreases rest
    {
      var net :| net in rest;
      if net.Contains(dst) {
        if best.None? || net.PrefixLen() > best.value.PrefixLen() {
          best := Some(net);
        }
      }
      rest := rest - {net};
    }
    if best.None? {
      return Done(None);
    }
    assert Longest(routes, dst, best.value);
    r := SelectRoute(routes[best.value], hash);
    if r.Done? && r.result.Some? {
      var i: nat :| Owns(routes[best.value], i, hash % TotalWeight(routes[best.value]))
          && r.result == Some(routes[best.value][i]);
      assert FoundIn(routes, dst, hash, best.value, i, r.result.value);
    }
  }

  /** With the table invariant and one spelling of each longest match the lookup is a
      function of table, address and hash, and fails only when no prefix matches. */
  lemma LookupDetermined(routes: Routes, dst: IpAddr, hash: u64, r: Option<Route>, r': Option<Route>)
    requires TableInv(routes) && forall n :: Longest(routes, dst, n) ==> OneSpelling(routes, n)
    requires LookupResult(routes, dst, hash, r) && LookupResult(routes, dst, hash, r')
    ensures r == r'
    ensures r.None? <==> forall net :: net in routes ==> !net.Contains(dst)
  {
    hide OneSpelling, IpNet.Contains, Owns, Overflows, DistinctHops;
    if r.Some? && r'.Some? {
      hide TableInv;
      var n, i: nat :| FoundIn(routes, dst, hash, n, i, r.value);
      var m, j: nat :| FoundIn(routes, dst, hash, m, j, r'.value);
      assert Longest(routes, dst, n) && Longest(routes, dst, m);
      hide Longest;
      LongestUniqueIff(routes, dst, n);
      FoundOnce(routes, dst, hash, n, i, j, r.value, r'.value);
    }
  }

  lemma FoundOnce(routes: Routes, dst: IpAddr, hash: u64, n: IpNet, i: nat, j: nat, r: Route, r': Route)
    requires FoundIn(routes, dst, hash, n, i, r) && FoundIn(routes, dst, hash, n, j, r')
    ensures r == r'
  {
    var group := routes[n];
    hide Longest, WeightBefore;
    OwnerUnique(group, i, j, hash % TotalWeight(group));
  }

  /** In a table that keeps the invariant, every longest match yields a result, and it
      is a route to that very destination. */
  lemma ResultOf(routes: Routes, dst: IpAddr, hash: u64, n: IpNet) returns (r: Route)
    requires TableInv(routes) && WeightsFit(routes) && Longest(routes, dst, n)
    ensures LookupResult(routes, dst, hash, Some(r)) && r.destination == n
  {
    var group := routes[n];
    hide Overflows, DistinctHops, Longest;
    WeightBeforeMonotone(group, 0, |group|);
    var i := OwnerExists(group, |group|, hash % TotalWeight(group));
    r := group[i];
    assert FoundIn(routes, dst, hash, n, i, r);
  }

  /** And exactly then: the walk order decides nothing if and only if no longest match
      for the address has a second spelling in the table. */
  lemma LookupDeterminedIff(routes: Routes, dst: IpAddr, hash: u64)
    requires TableInv(routes) && WeightsFit(routes)
    ensures (forall r, r' :: LookupResult(routes, dst, hash, r) && LookupResult(routes, dst, hash, r') ==> r == r')
            <==> forall n :: Longest(routes, dst, n) ==> OneSpelling(routes, n)
  {
    hide LookupResult, Longest, OneSpelling, TableInv, WeightsFit;
    if forall n :: Longest(routes, dst, n) ==> OneSpelling(routes, n) {
      forall r, r' | LookupResult(routes, dst, hash, r) && LookupResult(routes, dst, hash, r') ensures r == r' {
        LookupDetermined(routes, dst, hash, r, r');
      }
    } else {
      var n :| Longest(routes, dst, n) && !OneSpelling(routes, n);
      LongestUniqueIff(routes, dst, n);
      var m :| Longest(routes, dst, m) && m != n;
      var r := ResultOf(routes, dst, hash, n);
      var r' := ResultOf(routes, dst, hash, m);
      assert Some(r) != Some(r');
    }
  }

  /** The smallest such table: 10.0.0.0/8 and 10.0.0.1/8, asked for 10.0.0.2, yield two
      different routes. */
  lemma NonCanonicalAmbiguous(hash: u64, a: NextHop, b: NextHop)
    ensures var n, m, dst := Net4(0x0A00_0000, 8), Net4(0x0A00_0001, 8), V4(0x0A00_0002);
            var routes := map[n := [Route(n, a, 1)], m := [Route(m, b, 1)]];
            && Longest(routes, dst, n) && Longest(routes, dst, m)
            && LookupResult(routes, dst, hash, Some(Route(n, a, 1)))
            && LookupResult(routes, dst, hash, Some(Route(m, b, 1)))
            && Route(n, a, 1) != Route(m, b, 1)
  {
    var n, m, dst := Net4(0x0A00_0000, 8), Net4(0x0A00_0001, 8), V4(0x0A00_0002);
    var routes := map[n := [Route(n, a, 1)], m := [Route(m, b, 1)]];
    assert Pow2(24) == 0x100_0000 by {
      assert Pow2(8) == 256;
      assert Pow2(16) == 256 * Pow2(8);
      assert Pow2(24) == 256 * Pow2(16);
    }
    hide Pow2;
    assert Longest(routes, dst, n) && Longest(routes, dst, m);
    hide Longest;
    SingleRoute(routes, dst, hash, n);
    SingleRoute(routes, dst, hash, m);
  }

  lemma SingleRoute(routes: Routes, dst: IpAddr, hash: u64, n: IpNet)
    requires Longest(routes, dst, n) && |routes[n]| == 1
    ensures LookupResult(routes, dst, hash, Some(routes[n][0]))
  {
    var group := routes[n];
    assert WeightBefore(group, 1) == WeightBefore(group, 0) + Weight(group[0]);
    hide Longest;
    assert FoundIn(routes, dst, hash, n, 0, group[0]);
  }

  /** The lookup without its parts: a route of a group whose destination matches and is at
      least as long as every other that does, the one in whose stretch of the group's
      residues the hash falls; and nothing only where nothing matches. */
  lemma LookupSpelledOut(routes: Routes, dst: IpAddr, hash: u64, r: Option<Route>)
    requires TableInv(routes) && LookupResult(routes, dst, hash, r)
    ensures r.Some? ==>
              var net := r.value.destination;
              && net in routes && net.Contains(dst)
              && (forall other :: other in routes && other.Contains(dst) ==> other.PrefixLen() <= net.PrefixLen())
              && 0 < TotalWeight(routes[net]) < 0x1_0000_0000
              && exists i :: 0 <= i < |routes[net]| && routes[net][i] == r.value
                   && (var residue := hash % TotalWeight(routes[net]);
                       TotalWeight(routes[net][..i]) <= residue < TotalWeight(routes[net][..i + 1]))
    ensures r.None? ==> forall net :: net in routes ==> !net.Contains(dst)
  {
    hide IpNet.Contains, DistinctHops, Owns;
    if r.Some? {
      var net, i: nat :| FoundIn(routes, dst, hash, net, i, r.value);
      OwnsInside(routes[net], i, hash % TotalWeight(routes[net]));
      assert r.value in routes[net];
      ShareIsWeight(routes[net], i);
    }
  }

  /** And it panics only where the weights of such a group add up to more than 32 bits. */
  lemma PanicSpelledOut(routes: Routes, dst: IpAddr)
    ensures LookupPanics(routes, dst) <==>
            exists net :: net in routes && net.Contains(dst) && TotalWeight(routes[net]) >= 0x1_0000_0000
              && forall other :: other in routes && other.Contains(dst) ==> other.PrefixLen() <= net.PrefixLen()
  {
    hide IpNet.Contains, TotalWeight;
  }

  lemma OwnsInside(group: seq<Route>, i: nat, residue: nat)
    requires Owns(group, i, residue)
    ensures i < |group|
  {
  }

  // ------------------------------------------------------------------ updates

  ghost predicate DistinctHops(group: seq<Route>)
  {
    forall i, j :: 0 <= i < j < |group| ==> group[i].nextHop != group[j].nextHop
  }

  /** Groups are non-empty, hold one route per next hop, and sit under their destination. */
  ghost predicate TableInv(routes: Routes)
  {
    forall net :: net in routes ==>
      && routes[net] != [] && DistinctHops(routes[net])
      && forall r :: r in routes[net] ==> r.destination == net
  }

  function Hops(group: seq<Route>): set<NextHop> { set r | r in group :: r.nextHop }

  function RoutesVia(group: seq<Route>, hop: NextHop): set<Route> { set r | r in group && r.nextHop == hop }

  function FirstVia(group: seq<Route>, hop: NextHop): (i: nat)
    ensures i <= |group|
    ensures forall j :: 0 <= j < i ==> group[j].nextHop != hop
    ensures i < |group| ==> group[i].nextHop == hop
  {
    if group == [] || group[0].nextHop == hop then 0 else 1 + FirstVia(group[1..], hop)
  }

  function AddRoute(routes: Routes, route: Route): Routes
  {
    var group := if route.destination in routes then routes[route.destination] else [];
    var i := FirstVia(group, route.nextHop);
    routes[route.destination := if i < |group| then group[i := route] else group + [route]]
  }

  function Retain(group: seq<Route>, hop: NextHop): seq<Route>
  {
    if group == [] then [] else
    (if group[0].nextHop != hop then [group[0]] else []) + Retain(group[1..], hop)
  }

  lemma {:induction false} RetainMembers(group: seq<Route>, hop: NextHop)
    ensures forall r :: r in Retain(group, hop) <==> r in group && r.nextHop != hop
  {
    if group != [] { RetainMembers(group[1..], hop); }
  }

  /** The order of the group, which decides who owns which residue, is kept. */
  lemma {:induction false} RetainKeepsOrder(a: seq<Route>, b: seq<Route>, hop: NextHop)
    ensures Retain(a + b, hop) == Retain(a, hop) + Retain(b, hop)
    decreases |a|
  {
    RetainOne(b, hop);
    hide Retain;
    if a == [] {
      assert a + b == b;
    } else {
      assert (a + b)[1..] == a[1..] + b;
      RetainFirst(a, hop);
      RetainFirst(a + b, hop);
      RetainKeepsOrder(a[1..], b, hop);
      AppendTwice(Retain([a[0]], hop), Retain(a[1..], hop), Retain(b, hop));
    }
  }

  lemma AppendTwice<T>(a: seq<T>, b: seq<T>, c: seq<T>)
    ensures a + (b + c) == a + b + c
  {
  }

  lemma RetainFirst(group: seq<Route>, hop: NextHop)
    requires group != []
    ensures Retain(group, hop) == Retain([group[0]], hop) + Retain(group[1..], hop)
  {
    assert [group[0]][1..] == [];
  }

  lemma RetainOne(group: seq<Route>, hop: NextHop)
    ensures Retain([], hop) == []
    ensures |group| == 1 ==> Retain(group, hop) == if group[0].nextHop == hop then [] else group
  {
  }

  /** And so it is when a route is added: it takes the place of the one via its hop, or the
      last. */
  lemma AddRouteKeepsOrder(routes: Routes, route: Route)
    ensures var before := if route.destination in routes then routes[route.destination] else [];
            var after := AddRoute(routes, route)[route.destination];
            && |before| <= |after| <= |before| + 1
            && (|after| == |before| <==> exists r :: r in before && r.nextHop == route.nextHop)
            && (|after| > |before| ==> after == before + [route])
            && forall i :: 0 <= i < |before| && before[i].nextHop != route.nextHop ==> after[i] == before[i]
  {
    var before := if route.destination in routes then routes[route.destination] else [];
    var at := FirstVia(before, route.nextHop);
    if at < |before| { assert before[at] in before; }
  }

  function RemoveRoute(routes: Routes, dst: IpNet, hop: NextHop): Routes
  {
    if dst !in routes then routes
    else
      var kept := Retain(routes[dst], hop);
      if kept == [] then routes - {dst} else routes[dst := kept]
  }

  lemma {:induction false} RetainKeepsDistinct(group: seq<Route>, hop: NextHop)
    requires DistinctHops(group)
    ensures DistinctHops(Retain(group, hop))
  {
    if group != [] {
      assert forall i, j :: 0 <= i < j < |group[1..]| ==>
          group[1..][i] == group[i + 1] && group[1..][j] == group[j + 1];
      RetainKeepsDistinct(group[1..], hop);
      RetainMembers(group[1..], hop);
      var tail := Retain(group[1..], hop);
      forall j | 0 <= j < |tail| ensures tail[j].nextHop != group[0].nextHop {
        assert tail[j] in tail;
        var k :| 0 <= k < |group[1..]| && group[1..][k] == tail[j];
        assert group[1..][k] == group[k + 1];
      }
    }
  }

  /** Adding keeps the table invariant and is an upsert by (destination, next hop):
      that route becomes the only one via its hop and no other route changes. */
  lemma AddRouteUpserts(routes: Routes, route: Route)
    requires TableInv(routes)
    ensures var after := AddRoute(routes, route);
            && TableInv(after)
            && after.Keys == routes.Keys + {route.destination}
            && RoutesVia(after[route.destination], route.nextHop) == {route}
            && (forall net :: net in routes && net != route.destination ==> after[net] == routes[net])
            && (route.destination in routes ==> forall hop :: hop != route.nextHop ==>
                  RoutesVia(after[route.destination], hop) == RoutesVia(routes[route.destination], hop))
  {
    var net := route.destination;
    var group := if net in routes then routes[net] else [];
    var i := FirstVia(group, route.nextHop);
    var after := AddRoute(routes, route)[net];
    assert DistinctHops(after);
    var at := if i < |group| then i else |group|;
    assert after[at] == route;
    forall r | r in after ensures r.destination == net && (r.nextHop == route.nextHop ==> r == route) {
      var k :| 0 <= k < |after| && after[k] == r;
      assert k != at ==> r in group;
    }
    forall hop | hop != route.nextHop ensures RoutesVia(after, hop) == RoutesVia(group, hop) {
      forall r: Route | r.nextHop == hop ensures r in after <==> r in group {
        if r in group {
          var k :| 0 <= k < |group| && group[k] == r;
          assert after[k] == r;
        }
        if r in after {
          var k :| 0 <= k < |after| && after[k] == r;
          assert group[k] == r;
        }
      }
    }
  }

  /** Removing keeps the table invariant, removes exactly the routes via that hop, and
      an emptied group disappears. */
  lemma RemoveRouteExact(routes: Routes, dst: IpNet, hop: NextHop)
    requires TableInv(routes)
    ensures var after := RemoveRoute(routes, dst, hop);
            && TableInv(after)
            && (forall net :: net in after && net != dst <==> net in routes && net != dst)
            && (forall net :: net in after && net != dst ==> after[net] == routes[net])
            && (dst in after ==> dst in routes && hop !in Hops(after[dst]))
            && (dst in routes ==> forall h :: h != hop ==>
                  RoutesVia(routes[dst], h) == if dst in after then RoutesVia(after[dst], h) else {})
  {
    if dst in routes {
      RetainKeepsDistinct(routes[dst], hop);
      RetainMembers(routes[dst], hop);
      var kept := Retain(routes[dst], hop);
      if kept == [] {
        forall r | r in routes[dst] ensures r.nextHop == hop {
          assert r in kept <==> r.nextHop != hop;
        }
      }
    }
  }
}
