/** The IPAM service: which addresses are handed out, to whom, and which are never to be. */
module Ipam {
  import opened Bytes
  import opened Net
  import opened HostScope
  import opened Bitmap

  const POOL_DEFAULT := "default"

  datatype Family = Ipv4 | Ipv6

  function FamilyOf(ip: IpAddr): Family { if ip.V4? then Ipv4 else Ipv6 }

  type Owners = map<string, map<IpAddr, string>>

  // ------------------------------------------------------------------ owners

  function OwnersOf(o: Owners, pool: string): map<IpAddr, string> { if pool in o then o[pool] else map[] }

  /** `register_ip_owner`. */
  function Registered(o: Owners, ip: IpAddr, owner: string, pool: string): Owners
  {
    o[pool := OwnersOf(o, pool)[ip := owner]]
  }

  /** `release_ip_owner`: a pool that becomes empty goes away. */
  function Released(o: Owners, ip: IpAddr, pool: string): Owners
  {
    if pool !in o then o
    else if o[pool] - {ip} == map[] then o - {pool}
    else o[pool := o[pool] - {ip}]
  }

  /** Only the default pool has owners, they are those of the allocated addresses, and no
      pool is empty. */
  ghost predicate Conserved(held: set<IpAddr>, o: Owners)
  {
    && OwnersOf(o, POOL_DEFAULT).Keys == held
    && forall pool :: pool in o ==> pool == POOL_DEFAULT && o[pool] != map[]
  }

  lemma RegisterConserves(held: set<IpAddr>, o: Owners, ip: IpAddr, owner: string)
    requires Conserved(held, o)
    ensures Conserved(held + {ip}, Registered(o, ip, owner, POOL_DEFAULT))
  {
    assert ip in Registered(o, ip, owner, POOL_DEFAULT)[POOL_DEFAULT];
  }

  lemma ReleaseConserves(held: set<IpAddr>, o: Owners, ip: IpAddr)
    requires Conserved(held, o)
    ensures Conserved(held - {ip}, Released(o, ip, POOL_DEFAULT))
  {
    var o' := Released(o, ip, POOL_DEFAULT);
    if POOL_DEFAULT in o {
      assert (o[POOL_DEFAULT] - {ip}).Keys == held - {ip};
    }
  }

  /** The rollback of a failed dual-stack allocation releases under the default pool, so
      it undoes the registration exactly when that is the pool it was made under. */
  lemma RollbackUndoesIff(o: Owners, ip: IpAddr, owner: string, pool: string)
    requires forall p :: p in o ==> o[p] != map[]
    requires ip !in OwnersOf(o, pool) && ip !in OwnersOf(o, POOL_DEFAULT)
    ensures Released(Registered(o, ip, owner, pool), ip, POOL_DEFAULT) == o <==> pool == POOL_DEFAULT
    ensures pool != POOL_DEFAULT ==> ip in OwnersOf(Released(Registered(o, ip, owner, pool), ip, POOL_DEFAULT), pool)
  {
    var o' := Registered(o, ip, owner, pool);
    assert o'[pool] - {ip} == OwnersOf(o, pool);
    if pool != POOL_DEFAULT {
      assert POOL_DEFAULT in o ==> o[POOL_DEFAULT] - {ip} == o[POOL_DEFAULT];
    }
  }

  // ------------------------------------------------------------------ one allocation, on values

  type Exclusions = map<(string, IpAddr), string>

  /** Who asks, for which pool, under which exclusions. */
  datatype Request = Request(excluded: Exclusions, pool: string, owner: string)
  {
    predicate Excludes(ip: IpAddr) { (pool, ip) in excluded }
  }

  /** The addresses handed out and the owner table. */
  datatype Held = Held(ips: set<IpAddr>, owners: Owners)
  {
    ghost predicate Conserves() { Conserved(ips, owners) }

    predicate HeldBy(ip: IpAddr, owner: string, pool: string)
    {
      ip in OwnersOf(owners, pool) && OwnersOf(owners, pool)[ip] == owner
    }
  }

  /** What an allocation took: addresses it had to skip, and those it returns. */
  datatype Taking = Taking(skipped: set<IpAddr>, chosen: set<IpAddr>)
  {
    function All(): set<IpAddr> { skipped + chosen }

    function Plus(t: Taking): Taking { Taking(skipped + t.skipped, chosen + t.chosen) }
  }

  const NOTHING := Taking({}, {})

  /** Afterwards the chosen addresses are the caller's, the skipped ones are marked, and
      all else stays. */
  ghost predicate Taken(q: Request, o: Owners, o': Owners, t: Taking)
  {
    && (forall p :: p != q.pool ==> OwnersOf(o', p) == OwnersOf(o, p) && (p in o' <==> p in o))
    && (q.pool in o' <==> q.pool in o || t.All() != {})
    && OwnersOf(o', q.pool).Keys == OwnersOf(o, q.pool).Keys + t.skipped + t.chosen
    && (forall ip :: ip in OwnersOf(o', q.pool).Keys ==>
          OwnersOf(o', q.pool)[ip] == NewOwner(OwnersOf(o, q.pool), ip, q.owner, t))
  }

  function NewOwner(before: map<IpAddr, string>, ip: IpAddr, owner: string, t: Taking): string
    requires ip in before || ip in t.skipped || ip in t.chosen
  {
    if ip in t.chosen then owner else if ip in t.skipped then owner + " (excluded)" else before[ip]
  }

  lemma NothingTaken(q: Request, o: Owners)
    ensures Taken(q, o, o, NOTHING)
  {
  }

  lemma ChosenTaken(q: Request, o: Owners, ip: IpAddr)
    ensures Taken(q, o, Registered(o, ip, q.owner, q.pool), Taking({}, {ip}))
    ensures Taken(q, o, Registered(o, ip, q.owner + " (excluded)", q.pool), Taking({ip}, {}))
  {
  }

  /** One allocation after another, of different addresses. */
  lemma TakenThen(q: Request, o: Owners, o1: Owners, o2: Owners, t1: Taking, t2: Taking)
    requires Taken(q, o, o1, t1) && Taken(q, o1, o2, t2) && t1.All() !! t2.All()
    ensures Taken(q, o, o2, t1.Plus(t2))
  {
    var t := t1.Plus(t2);
    forall ip | ip in OwnersOf(o2, q.pool).Keys
      ensures ip in OwnersOf(o, q.pool) || ip in t.skipped || ip in t.chosen
      ensures OwnersOf(o2, q.pool)[ip] == NewOwner(OwnersOf(o, q.pool), ip, q.owner, t)
    {
      assert ip in OwnersOf(o1, q.pool).Keys || ip in t2.skipped || ip in t2.chosen;
    }
  }

  lemma OneMore(q: Request, o: Owners, o1: Owners, skipped: set<IpAddr>, ip: IpAddr)
    requires Taken(q, o, o1, Taking(skipped, {})) && ip !in skipped
    ensures Taken(q, o, Registered(o1, ip, q.owner, q.pool), Taking(skipped, {ip}))
    ensures Taken(q, o, Registered(o1, ip, q.owner + " (excluded)", q.pool), Taking(skipped + {ip}, {}))
  {
    hide Taken, Registered;
    ChosenTaken(q, o1, ip);
    var t := Taking(skipped, {});
    TakenThen(q, o, o1, Registered(o1, ip, q.owner, q.pool), t, Taking({}, {ip}));
    TakenThen(q, o, o1, Registered(o1, ip, q.owner + " (excluded)", q.pool), t, Taking({ip}, {}));
    assert t.Plus(Taking({}, {ip})) == Taking(skipped, {ip});
    assert t.Plus(Taking({ip}, {})) == Taking(skipped + {ip}, {});
  }

  lemma TakenConserves(q: Request, held: set<IpAddr>, o: Owners, o': Owners, t: Taking)
    requires q.pool == POOL_DEFAULT && Conserved(held, o) && Taken(q, o, o', t)
    ensures Conserved(held + t.skipped + t.chosen, o')
  {
    forall pool | pool in o' ensures pool == POOL_DEFAULT && o'[pool] != map[] {
      if pool == POOL_DEFAULT {
        assert OwnersOf(o', pool).Keys == OwnersOf(o, pool).Keys + t.skipped + t.chosen;
        if pool in o {
          var ip :| ip in o[pool];
          assert ip in OwnersOf(o', pool).Keys;
        } else {
          var ip :| ip in t.All();
          assert ip in OwnersOf(o', pool).Keys;
        }
      }
    }
  }

  /** Releasing the chosen address again leaves only the skipped ones taken. */
  lemma ReleaseChosen(q: Request, held: set<IpAddr>, o: Owners, o': Owners, skipped: set<IpAddr>, ip: IpAddr)
    requires q.pool == POOL_DEFAULT && Conserved(held, o) && Taken(q, o, o', Taking(skipped, {ip}))
    requires ip !in held && ip !in skipped
    ensures Taken(q, o, Released(o', ip, POOL_DEFAULT), Taking(skipped, {}))
  {
    var got, o'' := OwnersOf(o', POOL_DEFAULT), Released(o', ip, POOL_DEFAULT);
    assert got.Keys == held + skipped + {ip};
    assert (got - {ip}).Keys == held + skipped;
    assert OwnersOf(o'', POOL_DEFAULT) == got - {ip} by {
      if got - {ip} == map[] { assert POOL_DEFAULT !in o''; }
    }
    assert got - {ip} == map[] <==> held + skipped == {} by {
      if held + skipped == {} { assert (got - {ip}).Keys == {}; }
    }
    assert POOL_DEFAULT in o <==> held != {} by {
      if POOL_DEFAULT in o { var k :| k in o[POOL_DEFAULT]; assert k in held; }
    }
  }

  /** An allocation took `t` out of `free`: the skipped addresses are all excluded for the
      pool, the chosen ones are not, and both are recorded. */
  ghost predicate Step(q: Request, free: set<IpAddr>, h: Held, h': Held, t: Taking)
  {
    && t.skipped <= free && t.chosen <= free
    && (forall ip :: ip in t.skipped ==> q.Excludes(ip))
    && (forall ip :: ip in t.chosen ==> !q.Excludes(ip))
    && h'.ips == h.ips + t.skipped + t.chosen
    && Taken(q, h.owners, h'.owners, t)
  }

  lemma NoStep(q: Request, free: set<IpAddr>, h: Held)
    ensures Step(q, free, h, h, NOTHING)
  {
  }

  /** The loop ends with everything taken, ... */
  lemma EndsFull(q: Request, usable: set<IpAddr>, h: Held, o': Owners, skipped: set<IpAddr>)
    requires h.ips + skipped == usable && skipped !! h.ips && Taken(q, h.owners, o', Taking(skipped, {}))
    requires forall ip :: ip in skipped ==> q.Excludes(ip)
    ensures Step(q, usable - h.ips, h, Held(h.ips + skipped, o'), Taking(skipped, {}))
    ensures skipped == usable - h.ips
  {
    hide Taken;
  }

  /** ... or with an address that is not excluded. */
  lemma EndsWith(q: Request, usable: set<IpAddr>, h: Held, o': Owners, skipped: set<IpAddr>, ip: IpAddr)
    requires h.ips + skipped <= usable && skipped !! h.ips && Taken(q, h.owners, o', Taking(skipped, {ip}))
    requires ip in usable && ip !in h.ips + skipped && !q.Excludes(ip)
    requires forall ip :: ip in skipped ==> q.Excludes(ip)
    ensures Step(q, usable - h.ips, h, Held(h.ips + skipped + {ip}, o'), Taking(skipped, {ip}))
  {
    hide Taken;
  }

  /** Allocations from two disjoint ranges, one after the other. */
  lemma StepThen(q: Request, freeA: set<IpAddr>, a: Held, a': Held, tA: Taking,
                 freeB: set<IpAddr>, b: Held, b': Held, tB: Taking)
    requires Step(q, freeA, a, a', tA) && Step(q, freeB, b, b', tB) && b.owners == a'.owners && freeA !! freeB
    ensures Step(q, freeA + freeB, Held(a.ips + b.ips, a.owners), Held(a'.ips + b'.ips, b'.owners), tA.Plus(tB))
  {
    hide Taken;
    TakenThen(q, a.owners, a'.owners, b'.owners, tA, tB);
  }

  lemma StepMembers(q: Request, free: set<IpAddr>, h: Held, h': Held, t: Taking)
    requires Step(q, free, h, h', t)
    ensures t.chosen <= free && forall ip :: ip in t.chosen ==> !q.Excludes(ip)
  {
  }

  /** A step that chose nothing took only excluded addresses. */
  lemma StepFails(q: Request, free: set<IpAddr>, h: Held, h': Held, t: Taking)
    requires Step(q, free, h, h', t) && t.chosen == {}
    ensures h'.ips == h.ips + t.skipped && forall ip :: ip in t.skipped ==> q.Excludes(ip)
    ensures Step(q, free, h, h', Taking(t.skipped, {}))
  {
    hide Taken;
    assert t == Taking(t.skipped, {});
  }

  /** Giving the chosen address back leaves only the skipped ones taken. */
  lemma StepBack(q: Request, free: set<IpAddr>, h: Held, h': Held, skipped: set<IpAddr>, ip: IpAddr)
    requires Step(q, free, h, h', Taking(skipped, {ip})) && free !! h.ips
    ensures h'.ips - {ip} == h.ips + skipped && forall ip :: ip in skipped ==> q.Excludes(ip)
    ensures q.pool == POOL_DEFAULT && h.Conserves() ==>
              Step(q, free, h, Held(h'.ips - {ip}, Released(h'.owners, ip, POOL_DEFAULT)), Taking(skipped, {}))
  {
    assert ip in Taking(skipped, {ip}).chosen;
    hide Taken, Conserved, Released;
    if q.pool == POOL_DEFAULT && h.Conserves() {
      ReleaseChosen(q, h.ips, h.owners, h'.owners, skipped, ip);
    }
  }

  /** The addresses a result carries. */
  function Got(r: Result<IpAddr>): set<IpAddr> { if r.Ok? then {r.value} else {} }

  function GotAny(r: Result<Option<IpAddr>>): set<IpAddr> { if r.Ok? && r.value.Some? then {r.value.value} else {} }

  function GotBoth(r: (Option<IpAddr>, Option<IpAddr>)): set<IpAddr> { GotAny(Ok(r.1)) + GotAny(Ok(r.0)) }

  // ------------------------------------------------------------------ service

  class DefaultIpamService {
    const ipv4: Option<HostScopeAllocator>
    const ipv6: Option<HostScopeAllocator>
    var owner: Owners
    var excludedIps: Exclusions

    function Allocator(f: Family): Option<HostScopeAllocator> { if f.Ipv4? then ipv4 else ipv6 }

    function Bitmaps(): set<AllocationBitmap>
    {
      (if ipv4.Some? then {ipv4.value.alloc} else {}) + (if ipv6.Some? then {ipv6.value.alloc} else {})
    }

    ghost predicate Valid()
      reads Bitmaps()
    {
      && (ipv4.Some? ==> ipv4.value.net.Net4? && ipv4.value.Valid())
      && (ipv6.Some? ==> ipv6.value.net.Net6? && ipv6.value.Valid())
      && (ipv4.Some? && ipv6.Some? ==> ipv4.value.alloc != ipv6.value.alloc)
    }

    ghost function AllocatedIn(f: Family): set<IpAddr>
      reads Bitmaps()
    {
      if Allocator(f).Some? then Allocator(f).value.Allocated() else {}
    }

    /** The addresses handed out, of both families. */
    ghost function Allocated(): set<IpAddr>
      reads Bitmaps()
    {
      AllocatedIn(Ipv6) + AllocatedIn(Ipv4)
    }

    /** The addresses of a family nobody has. */
    ghost function Free(f: Family): set<IpAddr>
      reads Bitmaps()
    {
      if Allocator(f).Some? then Allocator(f).value.Free() else {}
    }

    /** One family's addresses with the owner table. */
    ghost function HeldIn(f: Family): Held
      reads `owner, Bitmaps()
    {
      Held(AllocatedIn(f), owner)
    }

    /** Both families' addresses with the owner table. */
    ghost function AllHeld(): Held
      reads `owner, Bitmaps()
    {
      Held(Allocated(), owner)
    }

    constructor (ipv4: Option<IpNet>, ipv6: Option<IpNet>)
      requires (ipv4.Some? ==> ipv4.value.Net4?) && (ipv6.Some? ==> ipv6.value.Net6?)
      ensures Valid() && fresh(Bitmaps()) && Allocated() == {} && owner == map[] && excludedIps == map[]
      ensures Conserved(Allocated(), owner)
    {
      var a4: Option<HostScopeAllocator> := None;
      if ipv4.Some? {
        var a := new HostScopeAllocator(ipv4.value);
        a4 := Some(a);
      }
      var a6: Option<HostScopeAllocator> := None;
      if ipv6.Some? {
        var a := new HostScopeAllocator(ipv6.value);
        a6 := Some(a);
      }
      this.ipv4, this.ipv6 := a4, a6;
      owner, excludedIps := map[], map[];
    }

    /** An address handed out belongs to the allocator of its family. */
    lemma AllocatedByFamily(f: Family, ip: IpAddr)
      requires Valid() && ip in AllocatedIn(f)
      ensures FamilyOf(ip) == f
    {
      var a := Allocator(f).value;
      AddressIn(a.net, a.alloc.Allocated(), ip);
    }

    /** `exclude_ip`. */
    method ExcludeIp(ip: IpAddr, owner: string, pool: string)
      modifies `excludedIps
      ensures excludedIps == old(excludedIps)[(pool, ip) := owner]
    {
      excludedIps := excludedIps[(pool, ip) := owner];
    }

    /** `allocate` of the allocator for the address's family. */
    method TakeIn(ip: IpAddr) returns (r: Result<IpAddr>)
      requires Valid()
      modifies Bitmaps()
      ensures Valid()
      ensures r.Ok? <==> ip in old(Free(FamilyOf(ip)))
      ensures r.Ok? ==> r.value == ip
      ensures r.Err? ==> r.error == TakeError(ip, Allocator(FamilyOf(ip)).Some?, ip in old(AllocatedIn(FamilyOf(ip))))
      ensures AllocatedIn(FamilyOf(ip)) == old(AllocatedIn(FamilyOf(ip))) + if r.Ok? then {ip} else {}
      ensures AllocatedIn(Other(FamilyOf(ip))) == old(AllocatedIn(Other(FamilyOf(ip))))
    {
      var allocator := Allocator(FamilyOf(ip));
      if allocator.None? { return Err(Disabled(FamilyOf(ip))); }
      hide UsableIps, Addresses, Usable;
      AddressIn(allocator.value.net, allocator.value.alloc.Allocated(), ip);
      r := allocator.value.Allocate(ip);
    }

    /** `allocate_ip`: a given address. Every error leaves everything as it was. */
    method AllocateIp(ip: IpAddr, owner: string, pool: string) returns (r: Result<IpAddr>)
      requires Valid()
      modifies `owner, Bitmaps()
      ensures Valid()
      ensures r.Ok? <==> pool != "" && !Request(excludedIps, pool, owner).Excludes(ip) && ip in old(Free(FamilyOf(ip)))
      ensures r.Err? ==> Allocated() == old(Allocated()) && this.owner == old(this.owner)
      ensures r.Ok? ==> r.value == ip && Allocated() == old(Allocated()) + {ip}
                        && this.owner == Registered(old(this.owner), ip, owner, pool)
      ensures r.Err? ==>
                r.error == if pool == "" then PoolRequired
                           else if Request(excludedIps, pool, owner).Excludes(ip) then Excluded(excludedIps[(pool, ip)])
                           else TakeError(ip, Allocator(FamilyOf(ip)).Some?, ip in old(AllocatedIn(FamilyOf(ip))))
      ensures pool == POOL_DEFAULT && old(Conserved(Allocated(), this.owner)) ==> Conserved(Allocated(), this.owner)
    {
      hide Registered, Conserved, Valid, AllocatedIn, Free;
      if pool == "" { return Err(PoolRequired); }
      if (pool, ip) in excludedIps { return Err(Excluded(excludedIps[(pool, ip)])); }
      r := TakeIn(ip);
      if r.Ok? {
        assert Allocated() == old(Allocated()) + {ip};
        if pool == POOL_DEFAULT && old(Conserved(Allocated(), this.owner)) {
          RegisterConserves(old(Allocated()), this.owner, ip, owner);
        }
        this.owner := Registered(this.owner, ip, owner, pool);
      }
    }

    /** The loop of `allocate_next_family`: takes free addresses one by one, until one is
        not excluded for the pool. Each turn leaves one address less free. */
    method TakeUntilAllowed(a: HostScopeAllocator, owner: string, pool: string)
      returns (r: Result<IpAddr>, ghost skipped: set<IpAddr>)
      requires a.Valid()
      modifies `owner, a.alloc
      ensures a.Valid()
      ensures Step(Request(excludedIps, pool, owner), old(a.Free()), Held(old(a.Allocated()), old(this.owner)),
                   Held(a.Allocated(), this.owner), Taking(skipped, Got(r)))
      ensures r.Err? ==> r.error == RangeFull && skipped == old(a.Free())
    {
      var q := Request(excludedIps, pool, owner);
      ghost var h, usable := Held(a.Allocated(), this.owner), UsableIps(a.net);
      assert h.ips <= usable by { HeldIsUsable(a); }
      skipped := {};
      NothingTaken(q, h.owners);
      assert a.Free() == usable - h.ips;
      hide HostScopeAllocator.Valid, HostScopeAllocator.Allocated, HostScopeAllocator.Free, Registered, Taken,
        Request.Excludes, UsableIps, Usable, Step;
      while true
        invariant a.Valid() && a.Allocated() == h.ips + skipped <= usable && skipped !! h.ips
        invariant forall ip :: ip in skipped ==> q.Excludes(ip)
        invariant Taken(q, h.owners, this.owner, Taking(skipped, {}))
        decreases usable - skipped
      {
        r := a.AllocateNext();
        if r.Err? {
          EndsFull(q, usable, h, this.owner, skipped);
          return;
        }
        UsableIn(a.net, r.value);
        OneMore(q, h.owners, this.owner, skipped, r.value);
        if !q.Excludes(r.value) {
          this.owner := Registered(this.owner, r.value, owner, pool);
          EndsWith(q, usable, h, this.owner, skipped, r.value);
          return;
        }
        OneLess(h.ips, skipped, usable, r.value);
        this.owner := Registered(this.owner, r.value, owner + " (excluded)", pool);
        skipped := skipped + {r.value};
      }
    }

    /** `allocate_next_family`, one section under the lock: never an address excluded for the
        pool, and "range full" only when every address free at entry is. */
    method AllocateNextFamily(f: Family, owner: string, pool: string)
      returns (r: Result<IpAddr>, ghost skipped: set<IpAddr>)
      requires Valid()
      modifies `owner, Bitmaps()
      ensures Valid()
      ensures Step(Request(excludedIps, pool, owner), old(Free(f)), old(HeldIn(f)), HeldIn(f), Taking(skipped, Got(r)))
      ensures r.Err? ==> r.error == (if pool == "" then PoolUndetermined
                                     else if Allocator(f).None? then Disabled(f) else RangeFull)
      ensures r == Err(RangeFull) ==> skipped == old(Free(f))
      ensures r.Ok? ==> pool != ""
      ensures AllocatedIn(Other(f)) == old(AllocatedIn(Other(f))) && Free(Other(f)) == old(Free(Other(f)))
      ensures pool == POOL_DEFAULT && old(AllHeld()).Conserves() ==> AllHeld().Conserves()
    {
      hide Valid, AllocatedIn, Free, Step, Conserved;
      ghost var free, h, all, rest := Free(f), HeldIn(f), AllHeld(), AllocatedIn(Other(f));
      AllocatedSplit(f);
      r, skipped := NextOfFamily(f, owner, pool);
      AllocatedSplit(f);
      if pool == POOL_DEFAULT && all.Conserves() {
        FamilyConserves(Request(excludedIps, pool, owner), free, h, HeldIn(f), all, AllHeld(), rest,
            Taking(skipped, Got(r)));
      }
    }

    lemma AllocatedSplit(f: Family)
      ensures Allocated() == AllocatedIn(f) + AllocatedIn(Other(f))
    {
    }

    method NextOfFamily(f: Family, owner: string, pool: string) returns (r: Result<IpAddr>, ghost skipped: set<IpAddr>)
      requires Valid()
      modifies `owner, Bitmaps()
      ensures Valid()
      ensures Step(Request(excludedIps, pool, owner), old(Free(f)), old(HeldIn(f)), HeldIn(f), Taking(skipped, Got(r)))
      ensures r.Err? ==> r.error == (if pool == "" then PoolUndetermined
                                     else if Allocator(f).None? then Disabled(f) else RangeFull)
      ensures r == Err(RangeFull) ==> skipped == old(Free(f))
      ensures r.Ok? ==> pool != ""
      ensures AllocatedIn(Other(f)) == old(AllocatedIn(Other(f))) && Free(Other(f)) == old(Free(Other(f)))
    {
      skipped := {};
      NoStep(Request(excludedIps, pool, owner), Free(f), HeldIn(f));
      hide HostScopeAllocator.Free, HostScopeAllocator.Allocated, HostScopeAllocator.Valid, Step;
      if pool == "" { return Err(PoolUndetermined), skipped; }
      if Allocator(f).None? { return Err(Disabled(f)), skipped; }
      r, skipped := TakeUntilAllowed(Allocator(f).value, owner, pool);
    }

    /** `release` of the allocator for the address's family. */
    method ReleaseIn(ip: IpAddr) returns (ok: bool)
      requires Valid()
      modifies Bitmaps()
      ensures Valid()
      ensures ok <==> Allocator(FamilyOf(ip)).Some?
      ensures AllocatedIn(FamilyOf(ip)) == if ok then old(AllocatedIn(FamilyOf(ip))) - {ip} else {}
      ensures AllocatedIn(Other(FamilyOf(ip))) == old(AllocatedIn(Other(FamilyOf(ip))))
      ensures !ok ==> AllocatedIn(FamilyOf(ip)) == old(AllocatedIn(FamilyOf(ip)))
    {
      hide HostScopeAllocator.Allocated, HostScopeAllocator.Valid;
      var allocator := Allocator(FamilyOf(ip));
      ok := allocator.Some?;
      if ok { allocator.value.Release(ip); }
    }

    /** `release_ip`. */
    method ReleaseIp(ip: IpAddr, pool: string) returns (r: Result<()>)
      requires Valid()
      modifies `owner, Bitmaps()
      ensures Valid()
      ensures r == if pool == "" then Err(PoolRequired)
                   else if Allocator(FamilyOf(ip)).None? then Err(Disabled(FamilyOf(ip))) else Ok(())
      ensures owner == if r.Ok? then Released(old(owner), ip, pool) else old(owner)
      ensures r.Ok? ==> Allocated() == old(Allocated()) - {ip}
      ensures r.Err? ==> Allocated() == old(Allocated())
      ensures pool == POOL_DEFAULT && old(Conserved(Allocated(), owner)) ==> Conserved(Allocated(), owner)
    {
      hide Released, Conserved, AllocatedIn, Valid;
      if pool == "" { return Err(PoolRequired); }
      ghost var f, before := FamilyOf(ip), Allocated();
      assert ip !in AllocatedIn(Other(f)) by {
        if ip in AllocatedIn(Other(f)) { AllocatedByFamily(Other(f), ip); }
      }
      hide FamilyOf;
      var ok := ReleaseIn(ip);
      if !ok { return Err(Disabled(FamilyOf(ip))); }
      assert Allocated() == before - {ip};
      if pool == POOL_DEFAULT && Conserved(before, owner) {
        ReleaseConserves(before, owner, ip);
      }
      owner := Released(owner, ip, pool);
      r := Ok(());
    }

    predicate Wants(family: Option<Family>, f: Family) { (family == None || family == Some(f)) && Allocator(f).Some? }

    /** A family is wanted when it is asked for or none is, and is configured. */
    lemma WantsIff(family: Option<Family>)
      ensures Wants(family, Ipv4) <==> (family.None? || family.value.Ipv4?) && ipv4.Some?
      ensures Wants(family, Ipv6) <==> (family.None? || family.value.Ipv6?) && ipv6.Some?
    {
    }

    lemma FreeByFamily(f: Family, ip: IpAddr)
      requires Valid() && ip in Free(f)
      ensures FamilyOf(ip) == f && Allocator(f).Some? && ip !in AllocatedIn(f)
    {
      UsableIn(Allocator(f).value.net, ip);
    }

    lemma FamiliesDisjoint()
      requires Valid()
      ensures Free(Ipv6) !! Free(Ipv4) && Free(Ipv6) + Free(Ipv4) !! Allocated()
    {
      hide Valid, Free, AllocatedIn;
      forall f: Family, ip | ip in Free(f) ensures FamilyOf(ip) == f && ip !in AllocatedIn(f) { FreeByFamily(f, ip); }
      forall f: Family, ip | ip in AllocatedIn(f) ensures FamilyOf(ip) == f { AllocatedByFamily(f, ip); }
      assert forall ip :: ip in Free(Ipv6) ==> FamilyOf(ip) == Ipv6;
      assert forall ip :: ip in Free(Ipv4) ==> FamilyOf(ip) == Ipv4;
    }

    /** One half of `allocate_next`: nothing to do for a family not asked for or not set up. */
    method TakeWanted(f: Family, family: Option<Family>, owner: string, pool: string)
      returns (r: Result<Option<IpAddr>>, ghost skipped: set<IpAddr>)
      requires Valid()
      modifies `owner, Bitmaps()
      ensures Valid()
      ensures Step(Request(excludedIps, pool, owner), old(Free(f)), old(HeldIn(f)), HeldIn(f),
              Taking(skipped, GotAny(r)))
      ensures r.Ok? ==> (r.value.Some? <==> Wants(family, f))
      ensures r.Err? ==> Wants(family, f) && r.error == (if pool == "" then PoolUndetermined else RangeFull)
      ensures r == Err(RangeFull) ==> skipped == old(Free(f))
      ensures r.Ok? && r.value.Some? ==> pool != ""
      ensures AllocatedIn(Other(f)) == old(AllocatedIn(Other(f))) && Free(Other(f)) == old(Free(Other(f)))
      ensures pool == POOL_DEFAULT && old(AllHeld()).Conserves() ==> AllHeld().Conserves()
    {
      skipped := {};
      r := Ok(None);
      NoStep(Request(excludedIps, pool, owner), Free(f), HeldIn(f));
      hide Free, AllocatedIn, Valid, Step, Conserved;
      if Wants(family, f) {
        var next: Result<IpAddr>;
        next, skipped := AllocateNextFamily(f, owner, pool);
        r := if next.Ok? then Ok(Some(next.value)) else Err(next.error);
      }
    }

    /** `allocate_next`: IPv6 first, then IPv4; when IPv4 fails the IPv6 address is given
        back. An error then leaves only excluded addresses taken, and with the default
        pool nothing but their marks in the owner table. */
    method AllocateNext(family: Option<Family>, owner: string, pool: string)
      returns (r: Result<(Option<IpAddr>, Option<IpAddr>)>, ghost skipped: set<IpAddr>)
      requires Valid()
      modifies `owner, Bitmaps()
      ensures Valid()
      ensures r.Ok? ==>
                && (r.value.0.Some? <==> Wants(family, Ipv4)) && (r.value.1.Some? <==> Wants(family, Ipv6))
                && (r.value.0.Some? ==> r.value.0.value in old(Free(Ipv4)))
                && (r.value.1.Some? ==> r.value.1.value in old(Free(Ipv6)))
                && Step(Request(excludedIps, pool, owner), old(Free(Ipv6) + Free(Ipv4)), old(AllHeld()), AllHeld(),
                        Taking(skipped, GotBoth(r.value)))
      ensures r.Err? ==>
                && Allocated() == old(Allocated()) + skipped
                && (forall ip :: ip in skipped ==> Request(excludedIps, pool, owner).Excludes(ip))
                && (pool == POOL_DEFAULT && old(AllHeld()).Conserves() ==>
                      Step(Request(excludedIps, pool, owner), old(Free(Ipv6) + Free(Ipv4)), old(AllHeld()), AllHeld(),
                           Taking(skipped, {})))
      ensures r == Err(RangeFull) ==> exists f: Family :: Wants(family, f) && old(Free(f)) <= skipped
      ensures r.Err? ==> r.error == (if pool == "" then PoolUndetermined else RangeFull)
      ensures r.Err? ==> Wants(family, Ipv4) || Wants(family, Ipv6)
      ensures pool == POOL_DEFAULT && old(AllHeld()).Conserves() ==> AllHeld().Conserves()
    {
      hide Valid, AllocatedIn, Free, Request.Excludes, Conserved, Wants, Step, Released;
      ghost var q, free6, free4, h6, h4, all := Request(excludedIps, pool, owner), Free(Ipv6), Free(Ipv4), HeldIn(Ipv6),
        HeldIn(Ipv4), AllHeld();
      FamiliesDisjoint();
      forall ip | ip in free6 ensures FamilyOf(ip) == Ipv6 && Allocator(Ipv6).Some? { FreeByFamily(Ipv6, ip); }
      var r6, s6 := TakeWanted(Ipv6, family, owner, pool);
      ghost var after6, t6 := HeldIn(Ipv6), Taking(s6, GotAny(r6));
      if r6.Err? {
        skipped := s6;
        NoStep(q, free4, HeldIn(Ipv4));
        StepThen(q, free6, h6, after6, t6, free4, HeldIn(Ipv4), HeldIn(Ipv4), NOTHING);
        assert t6.Plus(NOTHING) == Taking(s6, {});
        StepFails(q, free6 + free4, all, AllHeld(), Taking(s6, {}));
        return Err(r6.error), skipped;
      }
      ghost var before4 := HeldIn(Ipv4);
      var r4, s4 := TakeWanted(Ipv4, family, owner, pool);
      skipped := s6 + s4;
      ghost var t4, both := Taking(s4, GotAny(r4)), AllHeld();
      StepThen(q, free6, h6, after6, t6, free4, before4, HeldIn(Ipv4), t4);
      if r4.Err? {
        r := Err(r4.error);
        if r6.value.Some? {
          var ip := r6.value.value;
          StepMembers(q, free6, h6, after6, t6);
          assert ip in GotAny(r6);
          assert t6.Plus(t4) == Taking(skipped, {ip});
          StepBack(q, free6 + free4, all, both, skipped, ip);
          var _ := ReleaseIp(ip, POOL_DEFAULT);
        } else {
          assert t6.Plus(t4) == Taking(skipped, {});
          StepFails(q, free6 + free4, all, both, Taking(skipped, {}));
        }
        return;
      }
      r := Ok((r4.value, r6.value));
      StepMembers(q, free6, h6, after6, t6);
      StepMembers(q, free4, before4, HeldIn(Ipv4), t4);
    }

    /** One section of another caller, under any of these pools. */
    method OtherCall(pools: set<string>) returns (ghost ops: seq<Op>)
      requires Valid()
      modifies `owner, `excludedIps, Bitmaps()
      ensures Valid()
      ensures Possible(old(AllHeld()), ops) && AllHeld() == AppliedAll(old(AllHeld()), ops)
      ensures forall op :: op in ops ==> op.pool in pools
    {
      hide Valid, AllocatedIn, Free, Conserved, Registered, Released, Step;
      ghost var h := AllHeld();
      ops := [];
      var ip: IpAddr, f: Family, who: string, pool: string, choice: nat := *, *, *, *, *;
      if pool !in pools {
        return;
      } else if choice == 0 {
        FreeIsNew(ip);
        var r := AllocateIp(ip, who, pool);
        if r.Ok? {
          ops := [Take(ip, who, pool)];
          AppliedOne(h, ops[0]);
        }
      } else if choice == 1 {
        var r := ReleaseIp(ip, pool);
        if r.Ok? {
          ops := [Release(ip, pool)];
          AppliedOne(h, ops[0]);
        }
      } else if choice == 2 {
        var _, taken := NextSection(f, Some(f), who, pool);
        ops := taken;
      } else {
        ExcludeIp(ip, who, pool);
      }
    }

    lemma FreeIsNew(ip: IpAddr)
      requires Valid()
      ensures ip in Free(FamilyOf(ip)) ==> ip !in Allocated()
    {
      hide Valid, AllocatedIn, Free;
      AllocatedSplit(FamilyOf(ip));
      if ip in Free(FamilyOf(ip)) {
        FreeByFamily(FamilyOf(ip), ip);
        if ip in AllocatedIn(Other(FamilyOf(ip))) { AllocatedByFamily(Other(FamilyOf(ip)), ip); }
      }
    }

    /** Nothing can be allocated: no pool, or every free address is excluded for it. */
    ghost predicate Exhausted(f: Family, pool: string)
      reads `excludedIps, Bitmaps()
    {
      pool == "" || forall ip :: ip in Free(f) ==> (pool, ip) in excludedIps
    }

    /** One half of `allocate_next`, as the addresses it takes one by one; it fails exactly
        when it is asked for and nothing can be allocated. */
    method NextSection(f: Family, family: Option<Family>, owner: string, pool: string)
      returns (r: Result<Option<IpAddr>>, ghost ops: seq<Op>)
      requires Valid()
      modifies `owner, Bitmaps()
      ensures Valid()
      ensures Possible(old(AllHeld()), ops) && AllHeld() == AppliedAll(old(AllHeld()), ops)
      ensures forall op :: op in ops ==> op.pool == pool
      ensures r.Err? <==> Wants(family, f) && old(Exhausted(f, pool))
      ensures r.Err? ==> r.error == if pool == "" then PoolUndetermined else RangeFull
      ensures r.Ok? ==> (r.value.Some? <==> Wants(family, f))
      ensures r.Ok? && r.value.Some? ==>
                && EndsTaking(ops, r.value.value, owner, pool)
                && r.value.value in Allocated() && AllHeld().HeldBy(r.value.value, owner, pool)
                && FamilyOf(r.value.value) == f && Allocator(f).Some?
      ensures pool == POOL_DEFAULT && old(AllHeld()).Conserves() ==> AllHeld().Conserves()
    {
      hide Valid, AllocatedIn, Free, Step, Conserved, Wants, Held.HeldBy;
      ghost var q, free, h, all := Request(excludedIps, pool, owner), Free(f), HeldIn(f), AllHeld();
      forall ip | ip in free ensures ip !in all.ips && FamilyOf(ip) == f && Allocator(f).Some? {
        FreeByFamily(f, ip);
        FreeIsNew(ip);
      }
      AllocatedSplit(f);
      ghost var skipped;
      r, skipped := TakeWanted(f, family, owner, pool);
      AllocatedSplit(f);
      ghost var t := Taking(skipped, GotAny(r));
      ops := StepIsTakes(q, free, h, HeldIn(f), all, t);
      StepIps(q, free, h, HeldIn(f), t);
      StepMembers(q, free, h, HeldIn(f), t);
      if r.Err? { StepFails(q, free, h, HeldIn(f), t); }
      assert AllHeld() == Held(all.ips + t.skipped + t.chosen, this.owner);
      assert r.Ok? && r.value.Some? ==> r.value.value in t.chosen;
    }

    /** Any number of other callers, each taking the lock for itself. */
    method OtherCallers(sections: nat, pools: set<string>) returns (ghost ops: seq<Op>)
      requires Valid()
      modifies `owner, `excludedIps, Bitmaps()
      ensures Valid()
      ensures Possible(old(AllHeld()), ops) && AllHeld() == AppliedAll(old(AllHeld()), ops)
      ensures forall op :: op in ops ==> op.pool in pools
      ensures pools <= {POOL_DEFAULT} && old(AllHeld()).Conserves() ==> AllHeld().Conserves()
    {
      hide Valid, AllocatedIn, Free, Conserved;
      ghost var h := AllHeld();
      ops := [];
      for i := 0 to sections
        invariant Valid() && Possible(h, ops) && AllHeld() == AppliedAll(h, ops)
        invariant forall op :: op in ops ==> op.pool in pools
      {
        ghost var more := OtherCall(pools);
        AppliedConcat(h, ops, more);
        ops := ops + more;
      }
      if pools <= {POOL_DEFAULT} && h.Conserves() { AppliedConserves(h, ops); }
    }

    /** `allocate_next` with the lock free between its sections, while others call for any
        of `pools`: what the IPv6 section did first, and what all callers did since. On
        success that is all; on an error with an IPv6 address, that address has also been
        released under the default pool, whoever held it by then: the caller if nobody had
        released it since, and otherwise the last to take it. Owners stay equal to allocated
        addresses if only the default pool is used. */
    method AllocateNextShared(family: Option<Family>, owner: string, pool: string, before4: nat, beforeRollback: nat,
                              pools: set<string>)
      returns (r: Result<(Option<IpAddr>, Option<IpAddr>)>, ghost v6: Option<IpAddr>, ghost first: seq<Op>,
               ghost since: seq<Op>)
      requires Valid()
      modifies `owner, `excludedIps, Bitmaps()
      ensures Valid()
      ensures pool == POOL_DEFAULT && pools <= {POOL_DEFAULT} && old(AllHeld()).Conserves() ==> AllHeld().Conserves()
      ensures v6.Some? <==> Wants(family, Ipv6) && !old(Exhausted(Ipv6, pool))
      ensures v6.Some? ==> EndsTaking(first, v6.value, owner, pool)
      ensures Possible(old(AllHeld()), first + since) && forall op :: op in first + since ==> op.pool in pools + {pool}
      ensures r.Ok? ==>
                && r.value.1 == v6
                && (r.value.1.Some? <==> Wants(family, Ipv6)) && (r.value.0.Some? <==> Wants(family, Ipv4))
                && (r.value.0.Some? ==> EndsTaking(since, r.value.0.value, owner, pool))
                && AllHeld() == AppliedAll(old(AllHeld()), first + since)
      ensures r.Err? ==>
                && r.error == (if pool == "" then PoolUndetermined else RangeFull)
                && (Wants(family, Ipv4) || (Wants(family, Ipv6) && old(Exhausted(Ipv6, pool))))
                && (v6.None? ==> AllHeld() == AppliedAll(old(AllHeld()), first + since))
                && (v6.Some? ==>
                      AllHeld() == Applied(AppliedAll(old(AllHeld()), first + since), Release(v6.value, POOL_DEFAULT)))
      ensures v6.Some? ==> HolderIs(AppliedAll(old(AllHeld()), first + since), since, v6.value, owner, pool)
    {
      hide Valid, AllocatedIn, Allocated, Free, Conserved, Registered, Released, Wants, TookLast, ReleasedBy,
        Held.HeldBy, AppliedAll, Possible, OwnersOf, EndsTaking, Exhausted, HolderIs;
      ghost var h := AllHeld();
      since := [];
      var r6;
      r6, first := NextSection(Ipv6, family, owner, pool);
      v6 := if r6.Ok? then r6.value else None;
      ghost var mine := AllHeld();
      if r6.Err? {
        assert first + since == first;
        return Err(r6.error), v6, first, since;
      }
      since := OtherCallers(before4, pools);
      var r4, taken := NextSection(Ipv4, family, owner, pool);
      AppliedConcat(mine, since, taken);
      EndsTakingLater(since, taken);
      since := since + taken;
      if r4.Err? {
        ghost var last := OtherCallers(beforeRollback, pools);
        AppliedConcat(mine, since, last);
        since := since + last;
      }
      AppliedConcat(h, first, since);
      if v6.Some? { HolderAfter(mine, since, v6.value, owner, pool); }
      if r4.Err? {
        if r6.value.Some? {
          var _ := ReleaseIp(r6.value.value, POOL_DEFAULT);
        }
        return Err(r4.error), v6, first, since;
      }
      r := Ok((r4.value, r6.value));
    }
  }

  // ------------------------------------------------------------------ between two sections

  /** What a section under the lock does to one address. */
  datatype Op = Take(ip: IpAddr, owner: string, pool: string) | Release(ip: IpAddr, pool: string)

  function Applied(h: Held, op: Op): Held
  {
    match op
    case Take(ip, owner, pool) => Held(h.ips + {ip}, Registered(h.owners, ip, owner, pool))
    case Release(ip, pool) => Held(h.ips - {ip}, Released(h.owners, ip, pool))
  }

  /** What is held after these operations. */
  function AppliedAll(h: Held, ops: seq<Op>): Held
  {
    if ops == [] then h else Applied(AppliedAll(h, ops[..|ops| - 1]), ops[|ops| - 1])
  }

  predicate EndsTaking(ops: seq<Op>, ip: IpAddr, owner: string, pool: string)
  {
    ops != [] && ops[|ops| - 1] == Take(ip, owner, pool)
  }

  lemma EndsTakingLater(before: seq<Op>, ops: seq<Op>)
    ensures forall ip, owner, pool :: EndsTaking(ops, ip, owner, pool) ==> EndsTaking(before + ops, ip, owner, pool)
  {
  }

  /** Only free addresses are taken. */
  predicate Possible(h: Held, ops: seq<Op>)
  {
    ops == [] ||
    (&& Possible(h, ops[..|ops| - 1])
     && (ops[|ops| - 1].Take? ==> ops[|ops| - 1].ip !in AppliedAll(h, ops[..|ops| - 1]).ips))
  }

  lemma AppliedOne(h: Held, op: Op)
    ensures AppliedAll(h, [op]) == Applied(h, op)
    ensures Possible(h, [op]) <==> op.Take? ==> op.ip !in h.ips
  {
    hide Applied;
    assert [op][..0] == [];
  }

  lemma NoOps(h: Held)
    ensures Possible(h, []) && AppliedAll(h, []) == h
  {
  }

  lemma OneTakeMore(h: Held, before: seq<Op>, ip: IpAddr, owner: string, pool: string)
    requires Possible(h, before) && ip !in AppliedAll(h, before).ips
    ensures var ops, was := before + [Take(ip, owner, pool)], AppliedAll(h, before);
            Possible(h, ops) && AppliedAll(h, ops) == Held(was.ips + {ip}, Registered(was.owners, ip, owner, pool))
  {
    hide Registered;
    var ops := before + [Take(ip, owner, pool)];
    assert ops[..|ops| - 1] == before;
  }

  lemma {:induction false} AppliedConcat(h: Held, a: seq<Op>, b: seq<Op>)
    ensures AppliedAll(h, a + b) == AppliedAll(AppliedAll(h, a), b)
    ensures Possible(h, a + b) <==> Possible(h, a) && Possible(AppliedAll(h, a), b)
    decreases |b|
  {
    hide Applied;
    if b == [] {
      assert a + b == a;
    } else {
      var n := |b| - 1;
      assert (a + b)[..|a + b| - 1] == a + b[..n];
      AppliedConcat(h, a, b[..n]);
    }
  }

  /** Sections of the default pool keep owners equal to allocated addresses. */
  lemma {:induction false} AppliedConserves(h: Held, ops: seq<Op>)
    requires h.Conserves() && forall op :: op in ops ==> op.pool == POOL_DEFAULT
    ensures AppliedAll(h, ops).Conserves()
    decreases |ops|
  {
    if ops != [] {
      var n := |ops| - 1;
      AppliedConserves(h, ops[..n]);
      var before := AppliedAll(h, ops[..n]);
      hide Conserved, Registered, Released;
      assert ops[n] in ops;
      match ops[n]
      case Take(ip, owner, _) => RegisterConserves(before.ips, before.owners, ip, owner);
      case Release(ip, _) => ReleaseConserves(before.ips, before.owners, ip);
    }
  }

  /** Taking these addresses one by one is one `Taken`. */
  lemma {:induction false} SkippedTakes(q: Request, h: Held, skipped: set<IpAddr>) returns (ops: seq<Op>)
    requires skipped !! h.ips
    ensures Possible(h, ops) && (forall op :: op in ops ==> op.pool == q.pool)
    ensures AppliedAll(h, ops).ips == h.ips + skipped
    ensures Taken(q, h.owners, AppliedAll(h, ops).owners, Taking(skipped, {}))
    decreases |skipped|
  {
    hide Taken, Registered, Possible, AppliedAll;
    if skipped == {} {
      NoOps(h);
      NothingTaken(q, h.owners);
      ops := [];
    } else {
      var ip :| ip in skipped;
      var before := SkippedTakes(q, h, skipped - {ip});
      OneMore(q, h.owners, AppliedAll(h, before).owners, skipped - {ip}, ip);
      OneTakeMore(h, before, ip, q.owner + " (excluded)", q.pool);
      assert skipped - {ip} + {ip} == skipped;
      assert h.ips + (skipped - {ip}) + {ip} == h.ips + skipped;
      ops := before + [Take(ip, q.owner + " (excluded)", q.pool)];
    }
  }

  lemma TakenDetermined(q: Request, o: Owners, o1: Owners, o2: Owners, t: Taking)
    requires Taken(q, o, o1, t) && Taken(q, o, o2, t)
    ensures o1 == o2
  {
    forall p ensures (p in o1 <==> p in o2) && OwnersOf(o1, p) == OwnersOf(o2, p) {
      if p == q.pool { assert OwnersOf(o1, p).Keys == OwnersOf(o2, p).Keys; }
    }
    assert forall p :: p in o1 ==> o1[p] == OwnersOf(o1, p) == OwnersOf(o2, p) == o2[p];
  }

  lemma StepIps(q: Request, free: set<IpAddr>, h: Held, h': Held, t: Taking)
    requires Step(q, free, h, h', t)
    ensures h'.ips == h.ips + t.skipped + t.chosen
  {
  }

  /** A step of one family, as takes in the table of both. */
  lemma StepIsTakes(q: Request, free: set<IpAddr>, h: Held, h': Held, all: Held, t: Taking) returns (ops: seq<Op>)
    requires Step(q, free, h, h', t) && all.owners == h.owners && free !! all.ips
    requires t.chosen == {} || exists ip :: t.chosen == {ip}
    ensures Possible(all, ops) && (forall op :: op in ops ==> op.pool == q.pool)
    ensures AppliedAll(all, ops) == Held(all.ips + t.skipped + t.chosen, h'.owners)
    ensures forall ip :: ip in t.chosen ==>
              EndsTaking(ops, ip, q.owner, q.pool) && AppliedAll(all, ops).HeldBy(ip, q.owner, q.pool)
  {
    hide Taken, Registered, Held.HeldBy, Possible, AppliedAll;
    ops := SkippedTakes(q, all, t.skipped);
    if t.chosen == {} {
      assert Taking(t.skipped, {}) == t;
    } else {
      var ip :| t.chosen == {ip};
      assert ip in t.chosen && ip !in t.skipped;
      var before := ops;
      OneMore(q, all.owners, AppliedAll(all, before).owners, t.skipped, ip);
      OneTakeMore(all, before, ip, q.owner, q.pool);
      ops := before + [Take(ip, q.owner, q.pool)];
      assert Taking(t.skipped, {ip}) == t;
    }
    TakenDetermined(q, all.owners, AppliedAll(all, ops).owners, h'.owners, t);
    forall ip | ip in t.chosen ensures AppliedAll(all, ops).HeldBy(ip, q.owner, q.pool) {
      ChosenHeld(q, all.owners, AppliedAll(all, ops), t, ip);
    }
  }

  lemma ChosenHeld(q: Request, o: Owners, h: Held, t: Taking, ip: IpAddr)
    requires Taken(q, o, h.owners, t) && ip in t.chosen
    ensures h.HeldBy(ip, q.owner, q.pool)
  {
    assert ip in OwnersOf(h.owners, q.pool).Keys;
  }

  /** Operation `i` took the address and nobody has released it since. */
  predicate TookLast(ops: seq<Op>, i: nat, ip: IpAddr)
  {
    i < |ops| && ops[i].Take? && ops[i].ip == ip && forall j :: i < j < |ops| ==> !Releases(ops[j], ip)
  }

  predicate Releases(op: Op, ip: IpAddr) { op.Release? && op.ip == ip }

  predicate ReleasedBy(ops: seq<Op>, ip: IpAddr) { exists j :: 0 <= j < |ops| && Releases(ops[j], ip) }

  /** Who holds an address at the end of these operations, if it was this owner's before:
      the same while nobody has released it, someone else exactly when somebody has and
      another caller took it since, and then the last one to. */
  ghost predicate HolderIs(end: Held, ops: seq<Op>, ip: IpAddr, owner: string, pool: string)
  {
    && (!ReleasedBy(ops, ip) ==> ip in end.ips && end.HeldBy(ip, owner, pool))
    && (ip in end.ips && ReleasedBy(ops, ip) <==> exists i: nat :: TookLast(ops, i, ip))
    && (forall i: nat :: TookLast(ops, i, ip) ==> end.HeldBy(ip, ops[i].owner, ops[i].pool))
  }

  lemma {:induction false} HolderAfter(h: Held, ops: seq<Op>, ip: IpAddr, owner: string, pool: string)
    requires Possible(h, ops) && ip in h.ips && h.HeldBy(ip, owner, pool)
    ensures HolderIs(AppliedAll(h, ops), ops, ip, owner, pool)
    decreases |ops|
  {
    if ops != [] {
      var n := |ops| - 1;
      var before, op := ops[..n], ops[n];
      HolderAfter(h, before, ip, owner, pool);
      assert ReleasedBy(ops, ip) <==> ReleasedBy(before, ip) || Releases(op, ip) by {
        if ReleasedBy(before, ip) {
          var j :| 0 <= j < |before| && Releases(before[j], ip);
          assert Releases(ops[j], ip);
        }
      }
      forall i: nat ensures TookLast(ops, i, ip) <==>
          if i == n then op.Take? && op.ip == ip else TookLast(before, i, ip) && !Releases(op, ip)
      {
        TookLastStep(ops, i, ip);
      }
      AppliedAt(AppliedAll(h, before), op, ip);
      hide Applied, Held.HeldBy, TookLast, ReleasedBy;
      if op.Take? && op.ip == ip { assert TookLast(ops, n, ip); }
      if i: nat :| TookLast(before, i, ip) && !Releases(op, ip) { assert i != n && TookLast(ops, i, ip); }
    }
  }

  lemma TookLastStep(ops: seq<Op>, i: nat, ip: IpAddr)
    requires ops != []
    ensures var n := |ops| - 1;
            TookLast(ops, i, ip) <==>
              if i == n then ops[n].Take? && ops[n].ip == ip else TookLast(ops[..n], i, ip) && !Releases(ops[n], ip)
  {
    var n := |ops| - 1;
    if i < n {
      assert ops[i] == ops[..n][i];
      if TookLast(ops, i, ip) {
        assert forall j :: i < j < n ==> ops[..n][j] == ops[j];
      } else if TookLast(ops[..n], i, ip) && !Releases(ops[n], ip) {
        forall j | i < j < |ops| ensures !Releases(ops[j], ip) { if j < n { assert ops[j] == ops[..n][j]; } }
      }
    }
  }

  lemma AppliedAt(h: Held, op: Op, ip: IpAddr)
    ensures var now := Applied(h, op);
            && (ip in now.ips <==> if op.ip != ip then ip in h.ips else op.Take?)
            && (op.ip == ip && op.Take? ==> now.HeldBy(ip, op.owner, op.pool))
            && (op.ip != ip ==> forall owner, pool :: h.HeldBy(ip, owner, pool) ==> now.HeldBy(ip, owner, pool))
  {
  }

  /** The smallest run in which the rollback takes from someone else: released by a third
      party and taken by `b` before the rollback of `a`. */
  lemma RollbackTakesFromOther(ip: IpAddr)
    ensures var mine := Held({ip}, Registered(map[], ip, "a", POOL_DEFAULT));
            var since := [Release(ip, POOL_DEFAULT), Take(ip, "b", POOL_DEFAULT)];
            var before := AppliedAll(mine, since);
            && mine.Conserves() && Possible(mine, since)
            && TookLast(since, 1, ip) && before.HeldBy(ip, "b", POOL_DEFAULT)
            && Applied(before, Release(ip, POOL_DEFAULT)) == Held({}, map[])
  {
    var mine := Held({ip}, Registered(map[], ip, "a", POOL_DEFAULT));
    var since := [Release(ip, POOL_DEFAULT), Take(ip, "b", POOL_DEFAULT)];
    RegisterConserves({}, map[], ip, "a");
    AppliedOne(mine, since[0]);
    assert since[..1] == [since[0]];
  }

  /** A step of one family keeps the owners equal to the addresses of both. */
  lemma FamilyConserves(q: Request, free: set<IpAddr>, h: Held, h': Held, all: Held, all': Held, rest: set<IpAddr>,
                         t: Taking)
    requires Step(q, free, h, h', t) && all.owners == h.owners && all'.owners == h'.owners
    requires all.ips == h.ips + rest && all'.ips == h'.ips + rest
    requires q.pool == POOL_DEFAULT && all.Conserves()
    ensures all'.Conserves()
  {
    hide Taken, Conserved;
    TakenConserves(q, all.ips, all.owners, all'.owners, t);
    assert all'.ips == all.ips + t.skipped + t.chosen;
  }

  lemma OneLess(held: set<IpAddr>, skipped: set<IpAddr>, usable: set<IpAddr>, ip: IpAddr)
    requires held + skipped <= usable && skipped !! held && ip in usable && ip !in held + skipped
    ensures held + skipped + {ip} == held + (skipped + {ip}) <= usable && (skipped + {ip}) !! held
    ensures usable - (skipped + {ip}) < usable - skipped
  {
    assert ip in usable - skipped && ip !in usable - (skipped + {ip});
  }

  lemma UsableIn(n: IpNet, ip: IpAddr)
    ensures ip in UsableIps(n) <==> Usable(n, ip)
  {
    AddressIn(n, {}, ip);
  }

  lemma HeldIsUsable(a: HostScopeAllocator)
    requires a.Valid()
    ensures a.Allocated() <= UsableIps(a.net)
  {
    hide UsableIps, Addresses, Usable;
    forall ip | ip in a.Allocated() ensures ip in UsableIps(a.net) {
      AddressIn(a.net, a.alloc.Allocated(), ip);
      OffsetsAreUsable(a.net, ip);
    }
  }

  function Other(f: Family): Family { if f.Ipv4? then Ipv6 else Ipv4 }

  /** Why a given address cannot be had: its family is not configured, or else it is taken,
      or else not in range. */
  lemma ErrorsSpelledOut(ip: IpAddr, configured: bool, taken: bool)
    ensures TakeError(ip, configured, taken)
            == if !configured then if ip.V4? then Ipv4Disabled else Ipv6Disabled
               else if taken then AlreadyAllocated else NotInRange
    ensures Disabled(Ipv4) == Ipv4Disabled && Disabled(Ipv6) == Ipv6Disabled
    ensures FamilyOf(ip) == (if ip.V4? then Ipv4 else Ipv6) && Other(Ipv4) == Ipv6 && Other(Ipv6) == Ipv4
  {
  }

  function Disabled(f: Family): IpamError { if f.Ipv4? then Ipv4Disabled else Ipv6Disabled }

  function TakeError(ip: IpAddr, configured: bool, taken: bool): IpamError
  {
    if !configured then Disabled(FamilyOf(ip)) else if taken then AlreadyAllocated else NotInRange
  }
}
