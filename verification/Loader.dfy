/** The BPF loader over a backend whose calls may fail part way: what every step keeps,
    and what `reconcile` converges to. */
module Loader {
  import opened Bytes
  import opened Net
  import opened Pins

  datatype LoaderEndpoint =
    | ContainerEndpoint(link: string, ips: seq<IpAddr>)
    | OtherEndpoint(other: Kind, link: string)
  {
    predicate Valid() { OtherEndpoint? ==> other != Container }

    function EndpointKind(): Kind { if ContainerEndpoint? then Container else other }

    function Ips(): seq<IpAddr> { if ContainerEndpoint? then ips else [] }

    function Key(): (Kind, string) { (EndpointKind(), link) }
  }

  /** What the backend keeps: pinned paths, the endpoint_config maps that hold a config,
      and the addresses in lxc_map. */
  datatype World = World(pins: set<Path>, written: set<Path>, lxc: set<IpAddr>)

  datatype Call =
    | LoadInstance(maps: set<Path>)
    | SetConfig(path: Path)
    | UpsertInfo(ips: set<IpAddr>)
    | Attach(pin: Path, side: Side)
    | RemoveDir(dir: Path)
    | Unpin(path: Path)
    | RemoveInfo(ip: IpAddr)
    | ResolveLink(link: string)
    | ListPins(dir: Path)
    | ListInfos

  /** A call that was made, and whether it succeeded. */
  datatype Made = Made(call: Call, ok: bool)

  function Under(pins: set<Path>, dir: Path): set<Path> { set p | p in pins && dir <= p }

  /** The state after a call that succeeded. */
  function Done(w: World, c: Call): World
  {
    match c
    case LoadInstance(maps) => w.(pins := w.pins + maps)
    case SetConfig(path) => w.(written := w.written + {path})
    case UpsertInfo(ips) => w.(lxc := w.lxc + ips)
    case Attach(pin, _) => w.(pins := w.pins + {pin})
    case RemoveDir(dir) => w.(pins := w.pins - Under(w.pins, dir))
    case Unpin(path) => w.(pins := w.pins - {path}, written := w.written - {path})
    case RemoveInfo(ip) => w.(lxc := w.lxc - {ip})
    case _ => w
  }

  predicate Between<T>(a: set<T>, b: set<T>, c: set<T>) { (a <= b <= c) || (c <= b <= a) }

  /** The states a call can leave, whether it succeeds or fails: none, some or all of
      its work is done. */
  predicate Effect(w: World, c: Call, w': World)
  {
    var d := Done(w, c);
    && Between(w.pins, w'.pins, d.pins) && Between(w.written, w'.written, d.written) && Between(w.lxc, w'.lxc, d.lxc)
    && (c.Unpin? ==> w' == w || w' == d)
  }

  // ------------------------------------------------------------------ step invariant

  function ConfigPath(root: Path, link: string): Path { PerEndpointMapPath(root, EndpointConfigMap, link) }

  /** A pinned container program has its endpoint_config map pinned and written. */
  ghost predicate ConfigFirst(root: Path, w: World)
  {
    forall link, p :: p in w.pins && EndpointLinkDir(root, Container, link) <= p ==>
      ConfigPath(root, link) in w.pins && ConfigPath(root, link) in w.written
  }

  /** Link pins follow the one kind each link name has. */
  ghost predicate OneKindEach(root: Path, kinds: map<string, Kind>, w: World)
  {
    forall k, link, p :: p in w.pins && EndpointLinkDir(root, k, link) <= p ==> link in kinds && kinds[link] == k
  }

  ghost predicate StepInv(root: Path, kinds: map<string, Kind>, w: World)
  {
    ConfigFirst(root, w) && OneKindEach(root, kinds, w)
  }

  /** The calls the loader makes: map pins only outside the link tree, programs only
      once their config is in place, and config maps unpinned only after the programs. */
  ghost predicate InOrder(root: Path, kinds: map<string, Kind>, w: World, c: Call)
  {
    match c
    case LoadInstance(maps) => forall m :: m in maps ==> !(LinksDir(root) <= m)
    case Attach(pin, _) =>
      exists k, link :: EndpointLinkDir(root, k, link) <= pin && link in kinds && kinds[link] == k
        && (k == Container ==> ConfigPath(root, link) in w.pins && ConfigPath(root, link) in w.written)
    case Unpin(path) =>
      forall link :: path == ConfigPath(root, link) ==> Under(w.pins, EndpointLinkDir(root, Container, link)) == {}
    case RemoveDir(dir) => LinksDir(root) <= dir
    case _ => true
  }

  /** Every such call keeps the step invariant, however much of it is carried out. */
  lemma InOrderKeeps(root: Path, kinds: map<string, Kind>, w: World, c: Call, w': World)
    requires StepInv(root, kinds, w) && InOrder(root, kinds, w, c) && Effect(w, c, w')
    ensures StepInv(root, kinds, w')
  {
    forall k, link, p | p in w'.pins && EndpointLinkDir(root, k, link) <= p
      ensures link in kinds && kinds[link] == k
              && (k == Container ==> ConfigPath(root, link) in w'.pins && ConfigPath(root, link) in w'.written)
    {
      assert LinksDir(root) <= EndpointLinkDir(root, k, link) <= p;
      match c {
        case Attach(pin, _) =>
          if p == pin {
            var k', link' :| EndpointLinkDir(root, k', link') <= pin && link' in kinds && kinds[link'] == k'
              && (k' == Container ==> ConfigPath(root, link') in w.pins && ConfigPath(root, link') in w.written);
            LinkDirsDisjoint(root, p, k, link, k', link');
          }
        case RemoveDir(dir) =>
          if k == Container { ConfigSurvivesDir(root, kinds, w, c, w', link, p); }
        case Unpin(path) =>
          assert p in Under(w.pins, EndpointLinkDir(root, k, link));
        case _ =>
      }
    }
  }

  /** Link directories hold no map pins. */
  lemma ConfigSurvivesDir(root: Path, kinds: map<string, Kind>, w: World, c: Call, w': World, link: string, p: Path)
    requires ConfigFirst(root, w) && c.RemoveDir? && Effect(w, c, w')
    requires p in w.pins && EndpointLinkDir(root, Container, link) <= p
    requires LinksDir(root) <= c.dir
    ensures ConfigPath(root, link) in w'.pins && ConfigPath(root, link) in w'.written
  {
    MapPathsDistinct(root, EndpointConfigMap, link, EndpointConfigMap, link, LxcMap);
    assert c.dir <= ConfigPath(root, link) ==> LinksDir(root) <= ConfigPath(root, link);
  }

  function MapPaths(root: Path, maps: seq<EndpointMap>, link: string): set<Path>
  {
    set m | m in maps :: PerEndpointMapPath(root, m, link)
  }

  /** The state without the pins in `paths`. */
  function Unpinned(w: World, paths: set<Path>): World
  {
    w.(pins := w.pins - paths, written := w.written - paths)
  }

  /** What a whole detach does to the pins and the configs. */
  function Detached(root: Path, w: World, k: Kind, link: string): World
  {
    Unpinned(Done(w, RemoveDir(EndpointLinkDir(root, k, link))), MapPaths(root, PerEndpointMaps(k), link))
  }

  /** Map pins are not scoped by kind, so a link used under two kinds can lose its
      container's config: exactly when the detached kind has an endpoint_config map too
      and the container's programs are still pinned. */
  lemma CrossKindDetach(root: Path, w: World, k: Kind, link: string)
    requires ConfigFirst(root, w) && k != Container
    ensures ConfigFirst(root, Detached(root, w, k, link))
            <==> (EndpointConfigMap in PerEndpointMaps(k) ==>
                Under(w.pins, EndpointLinkDir(root, Container, link)) == {})
  {
    hide PerEndpointMaps, ConfigPath, EndpointLinkDir;
    var w' := Detached(root, w, k, link);
    forall link', p | p in w'.pins && EndpointLinkDir(root, Container, link') <= p
      ensures (ConfigPath(root, link') in w'.pins && ConfigPath(root, link') in w'.written)
              <==> !(link' == link && EndpointConfigMap in PerEndpointMaps(k))
    {
      CrossKindPin(root, w, k, link, link', p);
    }
    if p :| p in Under(w.pins, EndpointLinkDir(root, Container, link)) {
      CrossKindPin(root, w, k, link, link, p);
    } else {
      assert forall p :: p in w'.pins && EndpointLinkDir(root, Container, link) <= p ==>
          p in Under(w.pins, EndpointLinkDir(root, Container, link));
    }
  }

  /** The smallest such input: one program of a container and its config; detaching the
      host endpoint on the same link leaves the program without the config. */
  lemma HostDetachTakesConfig(root: Path, link: string)
    ensures var program := EndpointLinkDir(root, Container, link) + ["from_container"];
            var w := World({program, ConfigPath(root, link)}, {ConfigPath(root, link)}, {});
            && ConfigFirst(root, w) && !ConfigFirst(root, Detached(root, w, Host, link))
            && program in Detached(root, w, Host, link).pins
  {
    var program := EndpointLinkDir(root, Container, link) + ["from_container"];
    var w := World({program, ConfigPath(root, link)}, {ConfigPath(root, link)}, {});
    assert EndpointLinkDir(root, Container, link) <= program;
    OnlyThisContainer(root, w, program, link);
    CrossKindDetach(root, w, Host, link);
    CrossKindPin(root, w, Host, link, link, program);
    assert PerEndpointMaps(Host)[1] == EndpointConfigMap;
    assert program in Under(w.pins, EndpointLinkDir(root, Container, link));
  }

  lemma OnlyThisContainer(root: Path, w: World, program: Path, link: string)
    requires program == EndpointLinkDir(root, Container, link) + ["from_container"]
    requires w == World({program, ConfigPath(root, link)}, {ConfigPath(root, link)}, {})
    ensures ConfigFirst(root, w)
  {
    hide EndpointLinkDir, ConfigPath;
    forall link', p | p in w.pins && EndpointLinkDir(root, Container, link') <= p ensures link' == link {
      ContainerPin(root, link, link', p);
    }
  }

  lemma ContainerPin(root: Path, link: string, link': string, p: Path)
    requires p == EndpointLinkDir(root, Container, link) + ["from_container"] || p == ConfigPath(root, link)
    requires EndpointLinkDir(root, Container, link') <= p
    ensures link' == link
  {
    assert LinksDir(root) <= EndpointLinkDir(root, Container, link') <= p;
    MapPathsDistinct(root, EndpointConfigMap, link, EndpointConfigMap, link, LxcMap);
    LinkDirsDisjoint(root, p, Container, link, Container, link');
  }

  lemma CrossKindPin(root: Path, w: World, k: Kind, link: string, link': string, p: Path)
    requires ConfigFirst(root, w) && k != Container
    requires p in w.pins && EndpointLinkDir(root, Container, link') <= p
    ensures var w' := Detached(root, w, k, link);
            && p in w'.pins
            && (ConfigPath(root, link') in w'.pins && ConfigPath(root, link') in w'.written
                <==> !(link' == link && EndpointConfigMap in PerEndpointMaps(k)))
  {
    hide PerEndpointMaps;
    assert LinksDir(root) <= EndpointLinkDir(root, Container, link') <= p;
    if EndpointLinkDir(root, k, link) <= p { LinkDirsDisjoint(root, p, k, link, Container, link'); }
    forall m ensures PerEndpointMapPath(root, m, link) != p
      ensures PerEndpointMapPath(root, m, link) == ConfigPath(root, link') <==> m == EndpointConfigMap && link == link'
    {
      MapPathsDistinct(root, m, link, EndpointConfigMap, link', LxcMap);
    }
    MapPathsDistinct(root, EndpointConfigMap, link', EndpointConfigMap, link', LxcMap);
    assert LinksDir(root) <= EndpointLinkDir(root, k, link);
    assert EndpointLinkDir(root, k, link) <= ConfigPath(root, link') ==> LinksDir(root) <= ConfigPath(root, link');
  }

  /** The state without the addresses of `e`. */
  function WithoutAddresses(w: World, e: LoaderEndpoint): World
  {
    w.(lxc := w.lxc - set ip | ip in e.Ips())
  }

  // ------------------------------------------------------------------ what a listing shows

  /** The endpoint a pinned program belongs to: `<links>/<kind>/<link>/.../<program>`. */
  function EndpointOf(root: Path, p: Path): (e: Option<(Kind, string)>)
    ensures e.Some? ==> |p| > 0
  {
    var rel := if LinksDir(root) <= p then p[|root| + 1..] else [];
    if rel == [] then None else ParsePinSubpath(rel[..|rel| - 1])
  }

  predicate PinsProgram(root: Path, p: Path, e: (Kind, string), program: string)
  {
    EndpointOf(root, p) == Some(e) && p[|p| - 1] == program
  }

  /** Every required hook of the endpoint is pinned. */
  ghost predicate Listed(root: Path, pins: set<Path>, e: (Kind, string))
  {
    forall h :: h in Hooks(e.0) && h.required ==> exists p :: p in pins && PinsProgram(root, p, e, h.program)
  }

  ghost predicate ListsExactly(root: Path, pins: set<Path>, listed: set<(Kind, string)>)
  {
    forall e :: e in listed <==> Listed(root, pins, e)
  }

  /** An endpoint is listed when both its programs are pinned below its directory. */
  lemma ListedSpelledOut(root: Path, pins: set<Path>, k: Kind, link: string)
    ensures Listed(root, pins, (k, link)) <==>
            && (exists below: Path :: ProgramPath(root, k, link, below, "from_" + KindStr(k)) in pins)
            && (exists below: Path :: ProgramPath(root, k, link, below, "to_" + KindStr(k)) in pins)
  {
    KindsSpelledOut(k);
    var hooks := Hooks(k);
    assert hooks[0] in hooks && hooks[1] in hooks && forall h :: h in hooks ==> h == hooks[0] || h == hooks[1];
    hide Hooks, KindStr, ProgramPath, PinsProgram;
    ProgramPinned(root, pins, k, link, "from_" + KindStr(k));
    ProgramPinned(root, pins, k, link, "to_" + KindStr(k));
  }

  lemma ProgramPinned(root: Path, pins: set<Path>, k: Kind, link: string, program: string)
    ensures (exists p :: p in pins && PinsProgram(root, p, (k, link), program)) <==>
            exists below: Path :: ProgramPath(root, k, link, below, program) in pins
  {
    hide KindStr, ProgramPath, PinsProgram;
    if p :| p in pins && PinsProgram(root, p, (k, link), program) { var below := BelowOf(root, p, k, link, program); }
    if below: Path :| ProgramPath(root, k, link, below, program) in pins {
      ProgramPins(root, k, link, below, program);
    }
  }

  function ProgramPath(root: Path, k: Kind, link: string, below: Path, program: string): Path
  {
    root + ["links", KindStr(k), link] + below + [program]
  }

  lemma BelowOf(root: Path, p: Path, k: Kind, link: string, program: string) returns (below: Path)
    requires PinsProgram(root, p, (k, link), program)
    ensures p == ProgramPath(root, k, link, below, program)
  {
    EndpointOfUnder(root, p, (k, link));
    var n := |root| + 3;
    assert p[..n] == EndpointLinkDir(root, k, link) == root + ["links", KindStr(k), link];
    EndpointIsAbove(root, p, (k, link));
    below := p[n..|p| - 1];
    assert p == p[..n] + below + [p[|p| - 1]];
  }

  lemma EndpointIsAbove(root: Path, p: Path, e: (Kind, string))
    requires EndpointOf(root, p) == Some(e)
    ensures |p| >= |root| + 4
  {
  }

  lemma ProgramPins(root: Path, k: Kind, link: string, below: Path, program: string)
    ensures PinsProgram(root, ProgramPath(root, k, link, below, program), (k, link), program)
  {
    var p := ProgramPath(root, k, link, below, program);
    var rel := p[|root| + 1..];
    assert LinksDir(root) <= p by { assert p[..|root| + 1] == LinksDir(root); }
    assert rel == [KindStr(k), link] + below + [program];
    assert rel[..|rel| - 1] == [KindStr(k), link] + below;
    PinSubpathRoundTrip(k, link, below);
  }

  lemma EndpointOfUnder(root: Path, p: Path, e: (Kind, string))
    requires EndpointOf(root, p) == Some(e)
    ensures EndpointLinkDir(root, e.0, e.1) <= p
  {
    var n := |root| + 1;
    var rel := p[n..];
    assert p[n] == rel[0] == rel[..|rel| - 1][0] && p[n + 1] == rel[1] == rel[..|rel| - 1][1];
    assert p[..n] == LinksDir(root);
    assert p[..n + 2] == EndpointLinkDir(root, e.0, e.1);
  }

  lemma AttachedPin(root: Path, e: (Kind, string), program: string)
    ensures PinsProgram(root, EndpointLinkDir(root, e.0, e.1) + [program], e, program)
  {
    var p := EndpointLinkDir(root, e.0, e.1) + [program];
    var rel := p[|root| + 1..];
    assert rel == [KindStr(e.0), e.1, program];
    assert rel[..|rel| - 1] == [KindStr(e.0), e.1] + [];
    PinSubpathRoundTrip(e.0, e.1, []);
  }

  /** Emptying one endpoint's link directory takes exactly that endpoint off the list. */
  lemma RemovalUnlists(root: Path, pins: set<Path>, e: (Kind, string), other: (Kind, string))
    ensures var after := pins - Under(pins, EndpointLinkDir(root, e.0, e.1));
            && !Listed(root, after, e)
            && (other != e ==> (Listed(root, after, other) <==> Listed(root, pins, other)))
  {
    var after := pins - Under(pins, EndpointLinkDir(root, e.0, e.1));
    forall p | p in pins && EndpointOf(root, p).Some?
      ensures p in after <==> EndpointOf(root, p).value != e
    {
      EndpointOfUnder(root, p, EndpointOf(root, p).value);
      if EndpointOf(root, p).value != e && EndpointLinkDir(root, e.0, e.1) <= p {
        var e' := EndpointOf(root, p).value;
        LinkDirsDisjoint(root, p, e.0, e.1, e'.0, e'.1);
      }
    }
    var h := Hooks(e.0)[0];
    assert h in Hooks(e.0) && h.required;
    assert forall p :: p in after ==> !PinsProgram(root, p, e, h.program);
  }

  // ------------------------------------------------------------------ sparing the desired

  function WantedIps(desired: seq<LoaderEndpoint>): set<IpAddr>
  {
    set e, ip | e in desired && ip in e.Ips() :: ip
  }

  function Wanted(desired: seq<LoaderEndpoint>): set<(Kind, string)>
  {
    set e | e in desired :: e.Key()
  }

  /** The call removes neither the link directory of a desired endpoint nor the address
      of a desired container. */
  ghost predicate Spares(root: Path, desired: seq<LoaderEndpoint>, c: Call)
  {
    match c
    case RemoveDir(dir) => exists k, link :: dir == EndpointLinkDir(root, k, link) && (k, link) !in Wanted(desired)
    case Unpin(path) => exists m, link :: path == PerEndpointMapPath(root, m, link)
    case RemoveInfo(ip) => ip !in WantedIps(desired)
    case _ => true
  }

  /** Such a call, carried out in full, in part or not at all, keeps every pin of every
      desired endpoint and every desired address. */
  lemma SparingKeeps(root: Path, desired: seq<LoaderEndpoint>, w: World, c: Call, w': World)
    requires Spares(root, desired, c) && Effect(w, c, w')
    ensures forall e :: e in Wanted(desired) ==>
              Under(w.pins, EndpointLinkDir(root, e.0, e.1)) <= Under(w'.pins, EndpointLinkDir(root, e.0, e.1))
    ensures w.lxc * WantedIps(desired) <= w'.lxc
  {
    forall e, p | e in Wanted(desired) && p in w.pins && EndpointLinkDir(root, e.0, e.1) <= p
      ensures p in w'.pins
    {
      match c {
        case RemoveDir(dir) =>
          var k, link :| dir == EndpointLinkDir(root, k, link) && (k, link) !in Wanted(desired);
          if dir <= p { LinkDirsDisjoint(root, p, k, link, e.0, e.1); }
        case Unpin(path) =>
          var m, link :| path == PerEndpointMapPath(root, m, link);
          MapPathsDistinct(root, m, link, m, link, LxcMap);
          assert LinksDir(root) <= EndpointLinkDir(root, e.0, e.1) <= p;
        case _ =>
      }
    }
  }

  // ------------------------------------------------------------------ backend

  /** What is promised about the calls made so far: with `kinds`, that each link name is
      used under one kind and every step keeps the step invariant; with `desired`, that
      the calls from number `since` on spare the desired endpoints. */
  datatype Promise = Promise(root: Path, kinds: Option<map<string, Kind>>, desired: Option<seq<LoaderEndpoint>>,
                             since: nat)
  {
    ghost predicate Keeps(w: World) { kinds.Some? ==> StepInv(root, kinds.value, w) }

    ghost predicate Allows(n: nat, w: World, c: Call)
    {
      && (kinds.Some? ==> InOrder(root, kinds.value, w, c))
      && (desired.Some? && since <= n ==> Spares(root, desired.value, c))
    }

    predicate OneKind(k: Kind, link: string)
    {
      kinds.Some? ==> link in kinds.value && kinds.value[link] == k
    }

    ghost predicate Dispensable(k: Kind, link: string) { desired.Some? ==> (k, link) !in Wanted(desired.value) }
  }

  lemma AllowedKeeps(p: Promise, n: nat, w: World, c: Call, w': World)
    requires p.Keeps(w) && p.Allows(n, w, c) && Effect(w, c, w')
    ensures p.Keeps(w')
  {
    if p.kinds.Some? { InOrderKeeps(p.root, p.kinds.value, w, c, w'); }
  }

  ghost function Before(origin: World, log: seq<(Call, World)>, i: nat): World
    requires i <= |log|
  {
    if i == 0 then origin else log[i - 1].1
  }

  /** A failing call that got as far as these paths and addresses. */
  function PartlyDone(w: World, c: Call, paths: set<Path>, ips: set<IpAddr>): (w': World)
    ensures Effect(w, c, w')
  {
    match c
    case LoadInstance(maps) => w.(pins := w.pins + maps * paths)
    case SetConfig(path) => w.(written := w.written + {path} * paths)
    case UpsertInfo(upserted) => w.(lxc := w.lxc + upserted * ips)
    case Attach(pin, _) => w.(pins := w.pins + {pin} * paths)
    case RemoveDir(dir) => w.(pins := w.pins - Under(w.pins, dir) * paths)
    case _ => w
  }

  /** Every state between nothing and all of a call's work is one it can fail in or leave. */
  lemma EveryEffectHappens(w: World, c: Call, w': World)
    requires Effect(w, c, w')
    ensures w' == Done(w, c) || exists paths, ips :: PartlyDone(w, c, paths, ips) == w'
  {
    var paths := (w'.pins - w.pins) + (w.pins - w'.pins) + (w'.written - w.written);
    var ips := w'.lxc - w.lxc;
    var partly := PartlyDone(w, c, paths, ips);
    match c {
      case RemoveDir(dir) => assert partly.pins == w'.pins;
      case LoadInstance(maps) => assert partly.pins == w'.pins;
      case SetConfig(path) => assert partly.written == w'.written;
      case UpsertInfo(upserted) => assert partly.lxc == w'.lxc;
      case Attach(pin, _) => assert partly.pins == w'.pins;
      case RemoveInfo(ip) => assert w'.lxc == w.lxc || w'.lxc == w.lxc - {ip};
      case _ =>
    }
  }

  ghost predicate GoodStep(p: Promise, n: nat, w: World, c: Call, w': World)
  {
    Effect(w, c, w') && p.Allows(n, w, c) && p.Keeps(w')
  }

  /** A run of the backend in which every call was allowed and every state kept. */
  ghost predicate Run(p: Promise, origin: World, log: seq<(Call, World)>)
  {
    && p.Keeps(origin)
    && forall i :: 0 <= i < |log| ==> GoodStep(p, i, Before(origin, log, i), log[i].0, log[i].1)
  }

  lemma RunExtends(p: Promise, origin: World, log: seq<(Call, World)>, c: Call, w': World)
    requires Run(p, origin, log)
    requires p.Allows(|log|, Before(origin, log, |log|), c) && Effect(Before(origin, log, |log|), c, w')
    ensures Run(p, origin, log + [(c, w')])
  {
    var w, log' := Before(origin, log, |log|), log + [(c, w')];
    assert p.Keeps(w) by {
      hide Promise.Keeps;
      if log != [] {
        var n := |log| - 1;
        assert GoodStep(p, n, Before(origin, log, n), log[n].0, log[n].1);
      }
    }
    AllowedKeeps(p, |log|, w, c, w');
    hide Promise.Keeps, Promise.Allows, Effect;
    forall i | 0 <= i < |log'| ensures GoodStep(p, i, Before(origin, log', i), log'[i].0, log'[i].1) {
      assert Before(origin, log', i) == Before(origin, log, i);
      if i < |log| { assert GoodStep(p, i, Before(origin, log, i), log[i].0, log[i].1); }
    }
  }

  /** What a run with a promise means at each of its calls: the step invariant, and every
      program of a desired endpoint and every desired address still there. */
  lemma RunPromises(p: Promise, origin: World, log: seq<(Call, World)>, i: nat)
    requires Run(p, origin, log) && i < |log|
    ensures var before, after := Before(origin, log, i), log[i].1;
            && (p.kinds.Some? ==> StepInv(p.root, p.kinds.value, after))
            && (p.desired.Some? && p.since <= i ==>
                  && before.lxc * WantedIps(p.desired.value) <= after.lxc
                  && forall e :: e in Wanted(p.desired.value) ==>
                       Under(before.pins, EndpointLinkDir(p.root, e.0, e.1))
                           <= Under(after.pins, EndpointLinkDir(p.root, e.0, e.1)))
  {
    hide StepInv, InOrder, Spares, Effect, Under;
    assert GoodStep(p, i, Before(origin, log, i), log[i].0, log[i].1);
    if p.desired.Some? && p.since <= i {
      SparingKeeps(p.root, p.desired.value, Before(origin, log, i), log[i].0, log[i].1);
    }
  }

  lemma DoneIsEffect(w: World, c: Call)
    ensures Effect(w, c, Done(w, c))
  {
  }

  class Backend {
    var world: World
    /** The state before the first call, and every call made with the state it left. */
    ghost var origin: World
    ghost var log: seq<(Call, World)>
    /** Every call, reading ones included, and how many of them have failed. */
    ghost var made: seq<Made>
    ghost var faults: nat

    constructor (world: World)
      ensures this.world == origin == world && log == [] && made == [] && faults == 0
    {
      this.world, origin, log, made, faults := world, world, [], [], 0;
    }

    /** The log is a run of the backend in which every call was allowed and every state
        passed through is a kept one. */
    ghost predicate Valid(p: Promise)
      reads `world, `origin, `log
    {
      world == Before(origin, log, |log|) && Run(p, origin, log)
    }

    lemma KeptNow(p: Promise)
      requires Valid(p)
      ensures p.Keeps(world)
    {
      hide Promise.Keeps;
      if log != [] { assert GoodStep(p, |log| - 1, Before(origin, log, |log| - 1), log[|log| - 1].0, world); }
    }

    /** From now on, promise to spare `desired` as well. */
    lemma PromiseMore(p: Promise, q: Promise)
      requires Valid(p) && q.root == p.root && q.kinds == p.kinds
      requires q.desired.Some? ==> q.since == |log|
      ensures Valid(q)
    {
      hide StepInv, InOrder, Spares, Effect;
    }

    /** One mutating call of the backend trait: it may fail, at any point of its work. */
    method Perform(ghost p: Promise, c: Call) returns (ok: bool)
      requires Valid(p) && p.Allows(|log|, world, c)
      modifies this
      ensures Valid(p) && old(log) <= log
      ensures Effect(old(world), c, world) && (ok ==> world == Done(old(world), c))
      ensures made == old(made) + [Made(c, ok)] && faults == old(faults) + if ok then 0 else 1
    {
      hide Effect, Run, Done, PartlyDone, Promise.Keeps, Promise.Allows;
      ghost var before := world;
      ok := *;
      if ok {
        DoneIsEffect(world, c);
        world := Done(world, c);
      } else {
        faults := faults + 1;
        var somePaths: set<Path> := *;
        var someIps: set<IpAddr> := *;
        world := PartlyDone(world, c, somePaths, someIps);
      }
      RunExtends(p, origin, log, c, world);
      log, made := log + [(c, world)], made + [Made(c, ok)];
    }

    /** A call that only reads: resolving a link, listing pins or addresses. */
    method Read(c: Call) returns (ok: bool)
      modifies `made, `faults
      ensures made == old(made) + [Made(c, ok)] && faults == old(faults) + if ok then 0 else 1
    {
      ok := *;
      made := made + [Made(c, ok)];
      if !ok { faults := faults + 1; }
    }
  }

  // ------------------------------------------------------------------ loader

  datatype LoadError = CallFailed | PartiallyAttached(hooks: seq<string>)

  /** `errors` names the endpoints whose add or detach failed. */
  datatype Reconciled = Aborted | Finished(errors: seq<(Kind, string)>)

  ghost predicate AllPinned(root: Path, pins: set<Path>, e: (Kind, string))
  {
    forall h :: h in Hooks(e.0) && h.required ==> EndpointLinkDir(root, e.0, e.1) + [h.program] in pins
  }

  lemma PinnedIsListed(root: Path, pins: set<Path>, e: (Kind, string))
    requires AllPinned(root, pins, e)
    ensures Listed(root, pins, e)
  {
    forall h | h in Hooks(e.0) && h.required ensures exists p :: p in pins && PinsProgram(root, p, e, h.program) {
      AttachedPin(root, e, h.program);
    }
  }

  /** The map pins an instance of this endpoint uses. */
  function MapPins(root: Path, k: Kind, link: string): set<Path>
  {
    {GlobalMapPath(root, LxcMap), GlobalMapPath(root, MetricsMap)}
    + set m | m in PerEndpointMaps(k) :: PerEndpointMapPath(root, m, link)
  }

  lemma MapPinsOutsideLinks(root: Path, k: Kind, link: string)
    ensures forall p :: p in MapPins(root, k, link) ==> !(LinksDir(root) <= p)
    ensures k == Container ==> ConfigPath(root, link) in MapPins(root, k, link)
  {
    MapPathsDistinct(root, CallsMap, link, CallsMap, link, LxcMap);
    MapPathsDistinct(root, EndpointConfigMap, link, CallsMap, link, MetricsMap);
    assert k == Container ==> PerEndpointMaps(k)[1] == EndpointConfigMap;
  }

  /** Nothing of the first state is missing in the second. */
  predicate Includes(w: World, w': World) { w.pins <= w'.pins && w.written <= w'.written && w.lxc <= w'.lxc }

  lemma RemoveDirAllowed(p: Promise, n: nat, w: World, k: Kind, link: string)
    requires p.Dispensable(k, link)
    ensures p.Allows(n, w, RemoveDir(EndpointLinkDir(p.root, k, link)))
  {
    assert LinksDir(p.root) <= EndpointLinkDir(p.root, k, link);
  }

  /** Once an endpoint's programs are gone its map pins may go. */
  lemma UnpinAllowed(p: Promise, n: nat, w: World, k: Kind, link: string, m: EndpointMap)
    requires p.Keeps(w) && p.OneKind(k, link) && Under(w.pins, EndpointLinkDir(p.root, k, link)) == {}
    ensures p.Allows(n, w, Unpin(PerEndpointMapPath(p.root, m, link)))
  {
    if p.kinds.Some? {
      forall link' | PerEndpointMapPath(p.root, m, link) == ConfigPath(p.root, link')
        ensures Under(w.pins, EndpointLinkDir(p.root, Container, link')) == {}
      {
        MapPathsDistinct(p.root, m, link, EndpointConfigMap, link', LxcMap);
        assert forall x :: x in Under(w.pins, EndpointLinkDir(p.root, Container, link')) ==>
            x in Under(w.pins, EndpointLinkDir(p.root, k, link));
      }
    }
  }

  lemma NothingUnpinned(root: Path, w: World, maps: seq<EndpointMap>, link: string)
    requires maps == []
    ensures w == Unpinned(w, MapPaths(root, maps, link))
  {
    hide PerEndpointMapPath;
    assert MapPaths(root, maps, link) == {};
  }

  lemma OneUnpinned(root: Path, w: World, maps: seq<EndpointMap>, n: nat, link: string)
    requires n < |maps|
    ensures Done(Unpinned(w, MapPaths(root, maps[..n], link)), Unpin(PerEndpointMapPath(root, maps[n], link)))
            == Unpinned(w, MapPaths(root, maps[..n + 1], link))
  {
    hide PerEndpointMapPath;
    assert maps[..n + 1] == maps[..n] + [maps[n]];
    assert MapPaths(root, maps[..n + 1], link)
        == MapPaths(root, maps[..n], link) + {PerEndpointMapPath(root, maps[n], link)};
  }

  lemma FewerMaps(root: Path, maps: seq<EndpointMap>, n: nat, link: string)
    requires n <= |maps|
    ensures MapPaths(root, maps[..n], link) <= MapPaths(root, maps, link)
  {
    hide PerEndpointMapPath;
  }

  lemma PartlyDetached(root: Path, w: World, k: Kind, link: string, n: nat, w': World)
    requires n <= |PerEndpointMaps(k)|
    requires w' == Unpinned(Done(w, RemoveDir(EndpointLinkDir(root, k, link))),
                            MapPaths(root, PerEndpointMaps(k)[..n], link))
    ensures Includes(Detached(root, w, k, link), w') && Includes(w', w)
  {
    FewerMaps(root, PerEndpointMaps(k), n, link);
    hide MapPaths, PerEndpointMaps;
  }

  /** A detach as the link pins show it: the endpoint's go and no others. */
  lemma DetachedLinks(root: Path, w: World, k: Kind, link: string)
    ensures Under(Detached(root, w, k, link).pins, LinksDir(root))
            == Under(w.pins, LinksDir(root)) - Under(w.pins, EndpointLinkDir(root, k, link))
  {
    hide PerEndpointMaps, PerEndpointMapPath;
    forall m ensures !(LinksDir(root) <= PerEndpointMapPath(root, m, link)) {
      MapPathsDistinct(root, m, link, m, link, LxcMap);
    }
  }

  lemma UnderLinks(root: Path, pins: set<Path>, k: Kind, link: string)
    ensures Under(pins, EndpointLinkDir(root, k, link))
            == Under(Under(pins, LinksDir(root)), EndpointLinkDir(root, k, link))
  {
    assert LinksDir(root) <= EndpointLinkDir(root, k, link);
    assert forall p :: p in pins && EndpointLinkDir(root, k, link) <= p ==> LinksDir(root) <= p;
  }

  /** `matched` holds, per endpoint, the programs of its kind pinned among `pins`. */
  ghost predicate Matches(root: Path, pins: set<Path>, matched: map<(Kind, string), set<string>>)
  {
    forall e: (Kind, string), h :: h in Hooks(e.0) ==>
      ((e in matched && h.program in matched[e]) <==> exists p :: p in pins && PinsProgram(root, p, e, h.program))
  }

  /** `match_pin`. */
  predicate MatchPin(k: Kind, filename: string) { exists h :: h in Hooks(k) && h.program == filename }

  /** `matched` with the pin at `p` taken in. */
  function Matched(root: Path, p: Path, matched: map<(Kind, string), set<string>>): map<(Kind, string), set<string>>
  {
    if EndpointOf(root, p).None? || !MatchPin(EndpointOf(root, p).value.0, p[|p| - 1]) then matched
    else
      var e := EndpointOf(root, p).value;
      matched[e := (if e in matched then matched[e] else {}) + {p[|p| - 1]}]
  }

  lemma MatchedStep(root: Path, pins: set<Path>, p: Path, matched: map<(Kind, string), set<string>>)
    requires Matches(root, pins, matched)
    ensures Matches(root, pins + {p}, Matched(root, p, matched))
  {
    hide EndpointOf, Hooks, MatchPin;
    var matched' := Matched(root, p, matched);
    forall e: (Kind, string), h | h in Hooks(e.0)
      ensures (e in matched' && h.program in matched'[e])
              <==> exists q :: q in pins + {p} && PinsProgram(root, q, e, h.program)
    {
      assert (e in matched && h.program in matched[e]) <==> exists q :: q in pins && PinsProgram(root, q, e, h.program);
      MatchedAt(root, p, matched, e, h);
      if PinsProgram(root, p, e, h.program) { assert p in pins + {p}; }
      if q :| q in pins && PinsProgram(root, q, e, h.program) { assert q in pins + {p}; }
    }
  }

  lemma MatchedAt(root: Path, p: Path, matched: map<(Kind, string), set<string>>, e: (Kind, string), h: Hook)
    requires h in Hooks(e.0)
    ensures var matched' := Matched(root, p, matched);
            (e in matched' && h.program in matched'[e])
            <==> (e in matched && h.program in matched[e]) || PinsProgram(root, p, e, h.program)
  {
    hide EndpointOf, Hooks;
  }

  /** `list_loader_endpoints`'s filter: every required program was matched. */
  predicate Complete(matched: map<(Kind, string), set<string>>, e: (Kind, string))
  {
    e in matched && forall h :: h in Hooks(e.0) && h.required ==> h.program in matched[e]
  }

  lemma CompleteIsListed(root: Path, pins: set<Path>, matched: map<(Kind, string), set<string>>, e: (Kind, string))
    requires Matches(root, pins, matched)
    ensures Complete(matched, e) <==> Listed(root, pins, e)
  {
    hide PinsProgram;
    var hooks := Hooks(e.0);
    hide Hooks;
    assert forall h :: h in hooks && h.required ==>
        ((e in matched && h.program in matched[e]) <==> exists p :: p in pins && PinsProgram(root, p, e, h.program));
  }

  lemma ListedUnderLinks(root: Path, pins: set<Path>, e: (Kind, string))
    ensures Listed(root, pins, e) <==> Listed(root, Under(pins, LinksDir(root)), e)
  {
    hide Hooks;
    assert forall p, program :: PinsProgram(root, p, e, program) ==> LinksDir(root) <= p;
  }

  lemma FilterIsListing(root: Path, pins: set<Path>, matched: map<(Kind, string), set<string>>)
    requires Matches(root, Under(pins, LinksDir(root)), matched)
    ensures ListsExactly(root, pins, set e | e in matched && Complete(matched, e))
  {
    hide Matches, Listed, LinksDir;
    forall e ensures e in matched && Complete(matched, e) <==> Listed(root, pins, e) {
      CompleteIsListed(root, Under(pins, LinksDir(root)), matched, e);
      ListedUnderLinks(root, pins, e);
    }
  }

  /** With the step invariant, a listed endpoint has the kind its link name has. */
  lemma ListedOneKind(p: Promise, w: World, e: (Kind, string))
    requires p.Keeps(w) && Listed(p.root, w.pins, e)
    ensures p.OneKind(e.0, e.1)
  {
    var h := Hooks(e.0)[0];
    assert h in Hooks(e.0) && h.required;
    var x :| x in w.pins && PinsProgram(p.root, x, e, h.program);
    EndpointOfUnder(p.root, x, e);
  }

  /** A detach, seen through the listing. */
  lemma DetachedListing(root: Path, pins: set<Path>, pins': set<Path>, e: (Kind, string), other: (Kind, string))
    requires Under(pins', LinksDir(root)) == Under(pins, LinksDir(root)) - Under(pins, EndpointLinkDir(root, e.0, e.1))
    ensures Listed(root, pins', other) <==> other != e && Listed(root, pins, other)
  {
    UnderLinks(root, pins, e.0, e.1);
    RemovalUnlists(root, Under(pins, LinksDir(root)), e, other);
    ListedUnderLinks(root, pins, other);
    ListedUnderLinks(root, pins', other);
  }

  ghost predicate Detachable(p: Promise, es: set<(Kind, string)>)
  {
    forall e :: e in es ==> p.OneKind(e.0, e.1) && p.Dispensable(e.0, e.1)
  }

  lemma DetachableOne(p: Promise, es: set<(Kind, string)>, e: (Kind, string))
    requires Detachable(p, es) && e in es
    ensures p.OneKind(e.0, e.1) && p.Dispensable(e.0, e.1)
  {
  }

  lemma StaleDetachable(p: Promise, w: World, existing: set<(Kind, string)>, wanted: set<(Kind, string)>)
    requires p.Keeps(w) && ListsExactly(p.root, w.pins, existing)
    requires p.desired.Some? && wanted == Wanted(p.desired.value)
    ensures Detachable(p, existing - wanted)
  {
    hide Listed, Promise.Keeps, Promise.OneKind, Wanted;
    forall e | e in existing - wanted ensures p.OneKind(e.0, e.1) && p.Dispensable(e.0, e.1) { ListedOneKind(p, w, e); }
  }

  lemma ListedGrows(root: Path, pins: set<Path>, pins': set<Path>, e: (Kind, string))
    requires pins <= pins' && Listed(root, pins, e)
    ensures Listed(root, pins', e)
  {
    hide Hooks, PinsProgram;
  }

  /** New link pins are all this endpoint's. */
  ghost predicate GrowsUnder(root: Path, pins: set<Path>, pins': set<Path>, k: Kind, link: string)
  {
    forall p :: p in pins' && LinksDir(root) <= p ==> p in pins || EndpointLinkDir(root, k, link) <= p
  }

  lemma OthersNotNew(root: Path, pins: set<Path>, pins': set<Path>, e: (Kind, string), other: (Kind, string))
    requires GrowsUnder(root, pins, pins', e.0, e.1) && other != e && Listed(root, pins', other)
    ensures Listed(root, pins, other)
  {
    hide Hooks, EndpointOf;
    forall h | h in Hooks(other.0) && h.required
      ensures exists p :: p in pins && PinsProgram(root, p, other, h.program)
    {
      var p :| p in pins' && PinsProgram(root, p, other, h.program);
      EndpointOfUnder(root, p, other);
      assert LinksDir(root) <= EndpointLinkDir(root, other.0, other.1) <= p;
      if EndpointLinkDir(root, e.0, e.1) <= p { LinkDirsDisjoint(root, p, e.0, e.1, other.0, other.1); }
      assert p in pins;
    }
  }

  /** These desired endpoints are listed, and their addresses known, unless named. */
  ghost predicate AddedBut(root: Path, w: World, desired: seq<LoaderEndpoint>, errors: seq<(Kind, string)>)
  {
    forall e :: e in desired && e.Key() !in errors ==>
      Listed(root, w.pins, e.Key()) && forall ip :: ip in e.Ips() ==> ip in w.lxc
  }

  lemma NothingAdded(root: Path, w: World, desired: seq<LoaderEndpoint>)
    requires desired == []
    ensures AddedBut(root, w, desired, [])
  {
  }

  lemma OneAdded(root: Path, w: World, e: LoaderEndpoint)
    requires AllPinned(root, w.pins, e.Key()) && (set ip | ip in e.Ips()) <= w.lxc
    ensures forall errors :: AddedBut(root, w, [e], errors)
  {
    PinnedIsListed(root, w.pins, e.Key());
    assert forall ip :: ip in e.Ips() ==> ip in set ip | ip in e.Ips();
  }

  lemma AddedMore(root: Path, w: World, w': World, desired: seq<LoaderEndpoint>, n: nat, errors: seq<(Kind, string)>,
                  errors': seq<(Kind, string)>)
    requires n < |desired| && AddedBut(root, w, desired[..n], errors) && Includes(w, w')
    requires if errors' == errors then AddedBut(root, w', [desired[n]], errors)
             else errors' == errors + [desired[n].Key()]
    ensures AddedBut(root, w', desired[..n + 1], errors')
  {
    hide Listed;
    forall e | e in desired[..n + 1] && e.Key() !in errors'
      ensures Listed(root, w'.pins, e.Key()) && forall ip :: ip in e.Ips() ==> ip in w'.lxc
    {
      if e in desired[..n] {
        assert e.Key() !in errors;
        ListedGrows(root, w.pins, w'.pins, e.Key());
      } else {
        assert e == desired[n] && e in [desired[n]];
      }
    }
  }

  /** All of `sure` is listed, and otherwise only what is named in `maybe`. */
  ghost predicate ListsBut(root: Path, pins: set<Path>, sure: set<(Kind, string)>, maybe: seq<(Kind, string)>)
  {
    && (forall e :: e in sure ==> Listed(root, pins, e))
    && (forall e :: Listed(root, pins, e) ==> e in sure || e in maybe)
  }

  lemma ExactlyListsBut(root: Path, pins: set<Path>, listed: set<(Kind, string)>)
    ensures ListsExactly(root, pins, listed) <==> ListsBut(root, pins, listed, [])
  {
    hide Listed;
  }

  /** A detach, complete or not, as the listing shows it. */
  lemma DetachedBut(root: Path, w: World, w': World, sure: set<(Kind, string)>, maybe: seq<(Kind, string)>,
                    e: (Kind, string))
    requires ListsBut(root, w.pins, sure, maybe) && Includes(Detached(root, w, e.0, e.1), w') && Includes(w', w)
    ensures ListsBut(root, w'.pins, sure - {e}, maybe + [e])
    ensures w' == Detached(root, w, e.0, e.1) ==> ListsBut(root, w'.pins, sure - {e}, maybe)
  {
    var gone := Detached(root, w, e.0, e.1);
    hide Listed, Under, LinksDir, EndpointLinkDir, Detached;
    DetachedLinks(root, w, e.0, e.1);
    forall other ensures Listed(root, gone.pins, other) <==> other != e && Listed(root, w.pins, other) {
      DetachedListing(root, w.pins, gone.pins, e, other);
    }
    forall other
      ensures Listed(root, gone.pins, other) ==> Listed(root, w'.pins, other)
      ensures Listed(root, w'.pins, other) ==> Listed(root, w.pins, other)
    {
      if Listed(root, gone.pins, other) { ListedGrows(root, gone.pins, w'.pins, other); }
      if Listed(root, w'.pins, other) { ListedGrows(root, w'.pins, w.pins, other); }
    }
  }

  /** A finished reconcile has done everything but what its errors name, and they name
      nothing but desired endpoints and ones that were listed before. */
  ghost predicate ReconciledBut(root: Path, w: World, w': World, desired: seq<LoaderEndpoint>,
                                errors: seq<(Kind, string)>)
  {
    && (forall e :: e in errors ==> e in Wanted(desired) || Listed(root, w.pins, e))
    && AddedBut(root, w', desired, errors)
    && (forall e :: Listed(root, w'.pins, e) ==> e in Wanted(desired) || e in errors)
    && w'.lxc <= WantedIps(desired)
  }

  // ------------------------------------------------------------------ which calls are made

  function AttachCalls(root: Path, k: Kind, link: string): (calls: seq<Call>)
    ensures |calls| == |Hooks(k)|
  {
    seq(|Hooks(k)|, i requires 0 <= i < |Hooks(k)| =>
      Attach(EndpointLinkDir(root, k, link) + [Hooks(k)[i].program], Hooks(k)[i].side))
  }

  function UnpinCalls(root: Path, k: Kind, link: string): (calls: seq<Call>)
    ensures |calls| == |PerEndpointMaps(k)|
  {
    var maps := PerEndpointMaps(k);
    seq(|maps|, i requires 0 <= i < |maps| => Unpin(PerEndpointMapPath(root, maps[i], link)))
  }

  /** The calls of an add that nothing stops. The first of them stop it when they fail, the
      hooks never do. */
  function AddCalls(root: Path, e: LoaderEndpoint): seq<Call>
  {
    FirmCalls(root, e) + AttachCalls(root, e.EndpointKind(), e.link)
  }

  function FirmCalls(root: Path, e: LoaderEndpoint): seq<Call>
  {
    [ResolveLink(e.link), LoadInstance(MapPins(root, e.EndpointKind(), e.link))]
    + if e.ContainerEndpoint? then [SetConfig(ConfigPath(root, e.link)), UpsertInfo(set ip | ip in e.Ips())] else []
  }

  function DetachCalls(root: Path, k: Kind, link: string): seq<Call>
  {
    [RemoveDir(EndpointLinkDir(root, k, link))] + UnpinCalls(root, k, link)
  }

  function RemoveCalls(root: Path, e: LoaderEndpoint): seq<Call>
  {
    seq(|e.Ips()|, i requires 0 <= i < |e.Ips()| => RemoveInfo(e.Ips()[i]))
        + DetachCalls(root, e.EndpointKind(), e.link)
  }

  /** The calls of an add: the link, the instance with its maps, for a container its config
      and addresses, and then the hooks. */
  lemma AddSpelledOut(root: Path, e: LoaderEndpoint)
    requires e.Valid()
    ensures var k, dir := e.EndpointKind(), root + ["links", KindStr(e.EndpointKind()), e.link];
            && FirmCalls(root, e)
               == [ResolveLink(e.link), LoadInstance(MapsOf(root, k, e.link))]
                  + (if k == Container then [SetConfig(root + ["globals", "endpoint_config_" + e.link]),
                                             UpsertInfo(set ip | ip in e.ips)] else [])
            && AddCalls(root, e)
               == FirmCalls(root, e)
                  + [Attach(dir + ["from_" + KindStr(k)], if k == Host then Egress else Ingress),
                     Attach(dir + ["to_" + KindStr(k)], if k == Host then Ingress else Egress)]
  {
    var k := e.EndpointKind();
    PathsSpelledOut(root, k, e.link);
    KindsSpelledOut(k);
    ConfigPathIs(root, e.link);
    MapPinsAre(root, k, e.link);
    hide ConfigPath, EndpointLinkDir, Hooks, KindStr, MapPins, MapsOf;
    assert AttachCalls(root, k, e.link)
        == [Attach(EndpointLinkDir(root, k, e.link) + [Hooks(k)[0].program], Hooks(k)[0].side),
            Attach(EndpointLinkDir(root, k, e.link) + [Hooks(k)[1].program], Hooks(k)[1].side)];
  }

  /** Both global maps, the endpoint's calls map, and for a container or host its config. */
  function MapsOf(root: Path, k: Kind, link: string): set<Path>
  {
    {root + ["globals", "lxc_map"], root + ["globals", "metrics_map"], root + ["globals", "calls_map_" + link]}
    + if k == Container || k == Host then {root + ["globals", "endpoint_config_" + link]} else {}
  }

  lemma MapPinsAre(root: Path, k: Kind, link: string)
    ensures MapPins(root, k, link) == MapsOf(root, k, link)
  {
    PathsSpelledOut(root, k, link);
    KindsSpelledOut(k);
    var maps := PerEndpointMaps(k);
    hide PerEndpointMapPath, GlobalMapPath, PerEndpointMaps;
    assert maps[0] == CallsMap && (|maps| == 2 ==> maps[1] == EndpointConfigMap);
    assert (set m | m in maps :: PerEndpointMapPath(root, m, link))
        == {PerEndpointMapPath(root, CallsMap, link)}
           + if |maps| == 2 then {PerEndpointMapPath(root, EndpointConfigMap, link)} else {};
  }

  /** And of a detach and a removal: addresses first, then the programs, then the maps. */
  lemma RemoveSpelledOut(root: Path, e: LoaderEndpoint)
    ensures var k := e.EndpointKind();
            && DetachCalls(root, k, e.link)
               == [RemoveDir(root + ["links", KindStr(k), e.link]), Unpin(root + ["globals", "calls_map_" + e.link])]
                  + (if k != Container && k != Host then []
                     else [Unpin(root + ["globals", "endpoint_config_" + e.link])])
            && |RemoveCalls(root, e)| == |e.Ips()| + |DetachCalls(root, k, e.link)|
            && RemoveCalls(root, e)[|e.Ips()|..] == DetachCalls(root, k, e.link)
            && forall i :: 0 <= i < |e.Ips()| ==> RemoveCalls(root, e)[i] == RemoveInfo(e.Ips()[i])
  {
    PathsSpelledOut(root, e.EndpointKind(), e.link);
    KindsSpelledOut(e.EndpointKind());
    hide EndpointLinkDir, PerEndpointMapPath, KindStr;
  }

  lemma ConfigPathIs(root: Path, link: string)
    ensures ConfigPath(root, link) == root + ["globals", "endpoint_config_" + link]
  {
    PathsSpelledOut(root, Container, link);
  }

  /** These calls, in this order; one of the first `firm` that fails is the last, and nothing
      else ends the sequence early. */
  ghost predicate Carried(m: seq<Made>, calls: seq<Call>, firm: nat)
  {
    && |m| <= |calls| && (forall i :: 0 <= i < |m| ==> m[i].call == calls[i])
    && (forall i :: 0 <= i < |m| && i < firm && !m[i].ok ==> i == |m| - 1)
    && (|m| < |calls| ==> 0 < |m| <= firm && !m[|m| - 1].ok)
  }

  ghost predicate AllOk(m: seq<Made>) { forall i :: 0 <= i < |m| ==> m[i].ok }

  /** An add has succeeded: all its calls were made, and none failed but optional hooks. */
  ghost predicate AddOk(root: Path, e: LoaderEndpoint, m: seq<Made>)
  {
    var hooks, firm := Hooks(e.EndpointKind()), |FirmCalls(root, e)|;
    && |m| == |AddCalls(root, e)|
    && forall i :: 0 <= i < |m| && !m[i].ok ==> firm <= i && !hooks[i - firm].required
  }

  /** The hooks that are required and whose call failed. */
  ghost predicate FailedHooks(k: Kind, m: seq<Made>, failures: seq<string>)
    requires |m| <= |Hooks(k)|
  {
    forall program :: program in failures <==>
      exists i :: 0 <= i < |m| && Hooks(k)[i].program == program && Hooks(k)[i].required && !m[i].ok
  }

  lemma NoFailures(k: Kind)
    ensures FailedHooks(k, [], [])
  {
  }

  lemma AttachOne(root: Path, k: Kind, link: string, m: seq<Made>, failures: seq<string>, ok: bool,
                  failures': seq<string>)
    requires |m| < |Hooks(k)| && FailedHooks(k, m, failures)
    requires (forall i :: 0 <= i < |m| ==> m[i].call == AttachCalls(root, k, link)[i])
    requires var h := Hooks(k)[|m|]; failures' == if !ok && h.required then failures + [h.program] else failures
    ensures var m' := m + [Made(AttachCalls(root, k, link)[|m|], ok)];
            && FailedHooks(k, m', failures')
            && forall i :: 0 <= i < |m'| ==> m'[i].call == AttachCalls(root, k, link)[i]
  {
    hide Hooks, AttachCalls;
    var h, m' := Hooks(k)[|m|], m + [Made(AttachCalls(root, k, link)[|m|], ok)];
    forall program
      ensures program in failures' <==>
              exists i :: 0 <= i < |m'| && Hooks(k)[i].program == program && Hooks(k)[i].required && !m'[i].ok
    {
      if i :| 0 <= i < |m| && Hooks(k)[i].program == program && Hooks(k)[i].required && !m[i].ok { assert !m'[i].ok; }
      if !ok && h.required && program == h.program { assert !m'[|m|].ok; }
    }
  }

  /** All these calls, one after another, up to the first that fails. */
  ghost predicate CarriedOut(m: seq<Made>, calls: seq<Call>, ok: bool)
  {
    Carried(m, calls, |calls|) && (ok <==> |m| == |calls| && AllOk(m))
  }

  /** The first of these calls, all successful so far. */
  ghost predicate SoFar(m: seq<Made>, calls: seq<Call>)
  {
    |m| <= |calls| && forall i :: 0 <= i < |m| ==> m[i] == Made(calls[i], true)
  }

  /** A failure ends them there ... */
  lemma CutCarried(m: seq<Made>, calls: seq<Call>)
    requires SoFar(m, calls) && |m| < |calls|
    ensures CarriedOut(m + [Made(calls[|m|], false)], calls, false)
    ensures SoFar(m + [Made(calls[|m|], true)], calls)
  {
    var m' := m + [Made(calls[|m|], false)];
    assert !m'[|m|].ok;
  }

  /** ... and other calls may come after them. */
  lemma ThenCarried(m: seq<Made>, calls: seq<Call>, m': seq<Made>, calls': seq<Call>, ok: bool)
    requires SoFar(m, calls) && |m| == |calls| && CarriedOut(m', calls', ok)
    ensures CarriedOut(m + m', calls + calls', ok)
  {
    var all := m + m';
    assert forall i :: |m| <= i < |all| ==> all[i] == m'[i - |m|];
    if AllOk(all) { forall i | 0 <= i < |m'| ensures m'[i].ok { assert all[|m| + i].ok; } }
  }

  lemma FirstDetach(root: Path, k: Kind, link: string)
    ensures CarriedOut([Made(RemoveDir(EndpointLinkDir(root, k, link)), false)], DetachCalls(root, k, link), false)
  {
    var calls := DetachCalls(root, k, link);
    assert [] + [Made(calls[0], false)] == [Made(RemoveDir(EndpointLinkDir(root, k, link)), false)];
    CutCarried([], calls);
  }

  lemma ThenDetach(root: Path, k: Kind, link: string, m: seq<Made>, ok: bool)
    requires CarriedOut(m, UnpinCalls(root, k, link), ok)
    ensures CarriedOut([Made(RemoveDir(EndpointLinkDir(root, k, link)), true)] + m, DetachCalls(root, k, link), ok)
  {
    var dir := EndpointLinkDir(root, k, link);
    hide EndpointLinkDir, UnpinCalls;
    ThenCarried([Made(RemoveDir(dir), true)], [RemoveDir(dir)], m, UnpinCalls(root, k, link), ok);
  }

  lemma AllCarried(m: seq<Made>, calls: seq<Call>)
    requires SoFar(m, calls) && |m| == |calls|
    ensures CarriedOut(m, calls, true)
  {
  }

  /** Calls made in parts, one after another. */
  ghost function Flat(parts: seq<seq<Made>>): seq<Made>
  {
    if parts == [] then [] else Flat(parts[..|parts| - 1]) + parts[|parts| - 1]
  }

  /** The endpoints whose add did not succeed, in order. */
  ghost function AddErrors(root: Path, desired: seq<LoaderEndpoint>, parts: seq<seq<Made>>): seq<(Kind, string)>
    requires |parts| == |desired|
  {
    if desired == [] then []
    else
      var n := |desired| - 1;
      AddErrors(root, desired[..n], parts[..n]) + if AddOk(root, desired[n], parts[n]) then [] else [desired[n].Key()]
  }

  /** The endpoints of which a detach did not come to its end, in order. */
  ghost function DetachErrors(root: Path, order: seq<(Kind, string)>, parts: seq<seq<Made>>): seq<(Kind, string)>
    requires |parts| == |order|
  {
    if order == [] then []
    else
      var n := |order| - 1;
      var (k, link) := order[n];
      DetachErrors(root, order[..n], parts[..n])
      + if CarriedOut(parts[n], DetachCalls(root, k, link), true) then [] else [order[n]]
  }

  /** One add for each of `desired`, whatever comes of the others. */
  ghost predicate Adds(root: Path, desired: seq<LoaderEndpoint>, parts: seq<seq<Made>>)
  {
    && |parts| == |desired|
    && forall i :: 0 <= i < |parts| ==> Carried(parts[i], AddCalls(root, desired[i]), |FirmCalls(root, desired[i])|)
  }

  /** One detach for each of `order`, likewise. */
  ghost predicate Detaches(root: Path, order: seq<(Kind, string)>, parts: seq<seq<Made>>)
  {
    && |parts| == |order| && (forall i, j :: 0 <= i < j < |order| ==> order[i] != order[j])
    && forall i :: 0 <= i < |parts| ==>
         CarriedOut(parts[i], DetachCalls(root, order[i].0, order[i].1), true)
         || CarriedOut(parts[i], DetachCalls(root, order[i].0, order[i].1), false)
  }

  /** The listing of addresses and removals, up to the first failure. */
  ghost predicate Drops(wanted: set<IpAddr>, m: seq<Made>)
  {
    && m != [] && m[0].call == ListInfos
    && (forall i :: 0 < i < |m| ==> m[i].call.RemoveInfo? && m[i].call.ip !in wanted)
    && forall i :: 0 <= i < |m| - 1 ==> m[i].ok
  }

  /** What a reconcile did: the adds, whether the listing of pins succeeded, the detaches and
      the addresses dropped. */
  datatype Course = Course(adds: seq<seq<Made>>, listed: bool, order: seq<(Kind, string)>, detaches: seq<seq<Made>>,
                           drops: seq<Made>)

  /** The calls of a reconcile and its result: no failing add or detach ends it, only a
      failing listing or a failing removal of an address does; and its errors are exactly
      the adds and detaches that failed, in order. */
  ghost predicate Runs(root: Path, desired: seq<LoaderEndpoint>, c: Course, m: seq<Made>, result: Reconciled)
  {
    && Adds(root, desired, c.adds)
    && Detaches(root, c.order, c.detaches) && (forall e :: e in c.order ==> e !in Wanted(desired))
    && (if !c.listed then m == Flat(c.adds) + [Made(ListPins(LinksDir(root)), false)] && result == Aborted
        else
          && Drops(WantedIps(desired), c.drops)
          && m == Flat(c.adds) + [Made(ListPins(LinksDir(root)), true)] + Flat(c.detaches) + c.drops
          && result == if c.drops[|c.drops| - 1].ok
                       then Finished(AddErrors(root, desired, c.adds) + DetachErrors(root, c.order, c.detaches))
                       else Aborted)
  }

  /** In some order. */
  ghost predicate Lists<T(!new)>(order: seq<T>, s: set<T>) { forall e :: e in order <==> e in s }

  lemma ListsMore<T(!new)>(order: seq<T>, s: set<T>, e: T)
    requires Lists(order, s) && e !in s
    ensures e !in order && Lists(order + [e], s + {e})
  {
  }

  lemma DropsMore(wanted: set<IpAddr>, m: seq<Made>, ip: IpAddr, ok: bool)
    requires Drops(wanted, m) && m != [] && m[|m| - 1].ok && ip !in wanted
    ensures Drops(wanted, m + [Made(RemoveInfo(ip), ok)])
  {
  }

  lemma Suffix<T>(a: seq<T>, b: seq<T>)
    ensures (a + b)[|a|..] == b && a <= a + b
  {
  }

  lemma Onward<T>(a: seq<T>, b: seq<T>, x: T)
    ensures a + b + [x] == a + (b + [x])
  {
  }

  lemma {:induction false} ErrorsAreOf(root: Path, order: seq<(Kind, string)>, parts: seq<seq<Made>>)
    requires |parts| == |order|
    ensures forall e :: e in DetachErrors(root, order, parts) ==> e in order
    decreases |order|
  {
    hide CarriedOut, DetachCalls;
    if order != [] { ErrorsAreOf(root, order[..|order| - 1], parts[..|order| - 1]); }
  }

  lemma ErrorsListed(root: Path, order: seq<(Kind, string)>, parts: seq<seq<Made>>, s: set<(Kind, string)>)
    requires |parts| == |order| && Lists(order, s)
    ensures forall e :: e in DetachErrors(root, order, parts) ==> e in s
  {
    ErrorsAreOf(root, order, parts);
    hide DetachErrors;
  }

  /** The detaches of `done` have been carried out, in this order and with these errors. */
  ghost predicate Detaching(root: Path, was: seq<Made>, now: seq<Made>, done: set<(Kind, string)>,
                            order: seq<(Kind, string)>, parts: seq<seq<Made>>, errors: seq<(Kind, string)>)
  {
    && Detaches(root, order, parts) && now == was + Flat(parts)
    && errors == DetachErrors(root, order, parts) && Lists(order, done)
  }

  lemma DetachingStart(root: Path, was: seq<Made>)
    ensures Detaching(root, was, was, {}, [], [], [])
  {
    assert was + [] == was;
  }

  lemma DetachingMore(root: Path, was: seq<Made>, before: seq<Made>, now: seq<Made>, done: set<(Kind, string)>,
                      order: seq<(Kind, string)>, parts: seq<seq<Made>>, errors: seq<(Kind, string)>,
                      e: (Kind, string), ok: bool)
    requires Detaching(root, was, before, done, order, parts, errors) && e !in done && before <= now
    requires CarriedOut(now[|before|..], DetachCalls(root, e.0, e.1), ok)
    ensures Detaching(root, was, now, done + {e}, order + [e], parts + [now[|before|..]],
                      if ok then errors else errors + [e])
  {
    hide CarriedOut, DetachCalls, Detaches, DetachErrors, Flat, Lists;
    ListsMore(order, done, e);
    DetachesMore(root, order, parts, e, now[|before|..], ok);
    OneMoreMade(was, Flat(parts), before, now);
  }

  lemma DetachingDone(root: Path, was: seq<Made>, now: seq<Made>, stale: set<(Kind, string)>,
                      order: seq<(Kind, string)>, parts: seq<seq<Made>>, errors: seq<(Kind, string)>)
    requires Detaching(root, was, now, stale, order, parts, errors)
    ensures Detaches(root, order, parts) && now == was + Flat(parts)
    ensures errors == DetachErrors(root, order, parts) && Lists(order, stale)
    ensures forall e :: e in errors ==> e in stale
  {
    ErrorsListed(root, order, parts, stale);
  }

  lemma OneMoreMade<T>(was: seq<T>, soFar: seq<T>, before: seq<T>, now: seq<T>)
    requires before == was + soFar && before <= now
    ensures now == was + (soFar + now[|before|..])
  {
  }

  lemma OneMoreDone<T>(all: set<T>, stale: set<T>, done: set<T>, todo: set<T>, e: T)
    requires done + todo == stale && done !! todo && e in todo
    ensures done + {e} + (todo - {e}) == stale && (done + {e}) !! (todo - {e})
    ensures all - done - {e} == all - (done + {e})
  {
  }

  lemma DropsStart(wanted: set<IpAddr>, ok: bool)
    ensures Drops(wanted, [Made(ListInfos, ok)])
  {
  }

  /** One address less to drop. */
  lemma OneDropped(before: set<IpAddr>, wanted: set<IpAddr>, todo: set<IpAddr>, now: set<IpAddr>, ip: IpAddr)
    requires todo <= before && now == before * wanted + todo && ip in todo
    ensures (if ip in wanted then now else now - {ip}) == before * wanted + (todo - {ip})
  {
  }

  lemma NoDetaches(root: Path)
    ensures Detaches(root, [], [])
  {
  }

  lemma FlatNothing()
    ensures Flat([]) == []
  {
  }

  lemma AddsMore(root: Path, desired: seq<LoaderEndpoint>, n: nat, parts: seq<seq<Made>>, m: seq<Made>, ok: bool)
    requires n < |desired| && Adds(root, desired[..n], parts)
    requires Carried(m, AddCalls(root, desired[n]), |FirmCalls(root, desired[n])|)
             && (ok <==> AddOk(root, desired[n], m))
    ensures Adds(root, desired[..n + 1], parts + [m]) && Flat(parts + [m]) == Flat(parts) + m
    ensures AddErrors(root, desired[..n + 1], parts + [m])
            == AddErrors(root, desired[..n], parts) + if ok then [] else [desired[n].Key()]
  {
    hide Carried, AddOk, AddCalls, FirmCalls;
    assert (parts + [m])[..n] == parts && desired[..n + 1][..n] == desired[..n];
  }

  lemma DetachesMore(root: Path, order: seq<(Kind, string)>, parts: seq<seq<Made>>, e: (Kind, string), m: seq<Made>,
                     ok: bool)
    requires Detaches(root, order, parts) && e !in order && CarriedOut(m, DetachCalls(root, e.0, e.1), ok)
    ensures Detaches(root, order + [e], parts + [m]) && Flat(parts + [m]) == Flat(parts) + m
    ensures DetachErrors(root, order + [e], parts + [m])
            == DetachErrors(root, order, parts) + if ok then [] else [e]
  {
    hide Carried, DetachCalls;
    var n := |order|;
    assert (parts + [m])[..n] == parts && (order + [e])[..n] == order;
  }

  lemma NothingGrown(root: Path, pins: set<Path>, k: Kind, link: string)
    ensures GrowsUnder(root, pins, pins, k, link)
  {
  }

  lemma MapsGrown(root: Path, pins: set<Path>, pins': set<Path>, k: Kind, link: string)
    requires pins' <= pins + MapPins(root, k, link)
    ensures GrowsUnder(root, pins, pins', k, link)
  {
    MapPinsOutsideLinks(root, k, link);
  }

  lemma PreparedMade(root: Path, e: LoaderEndpoint, written: seq<Made>, ok: bool)
    requires e.ContainerEndpoint? && (ok <==> |written| == 2 && AllOk(written))
    requires Carried(written, [SetConfig(ConfigPath(root, e.link)), UpsertInfo(set ip | ip in e.Ips())], 2)
    ensures var load := LoadInstance(MapPins(root, e.EndpointKind(), e.link));
            var m := [Made(ResolveLink(e.link), true), Made(load, true)] + written;
            && 0 < |m| <= |FirmCalls(root, e)| && (forall i :: 0 <= i < |m| ==> m[i].call == FirmCalls(root, e)[i])
            && (forall i :: 0 <= i < |m| - 1 ==> m[i].ok)
            && ok == m[|m| - 1].ok && (ok ==> |m| == |FirmCalls(root, e)| && AllOk(m))
  {
    hide MapPins, ConfigPath;
  }

  /** An add that a failing call ends early ... */
  lemma StoppedAdd(root: Path, e: LoaderEndpoint, m: seq<Made>)
    requires 0 < |m| <= |FirmCalls(root, e)| && forall i :: 0 <= i < |m| ==> m[i].call == FirmCalls(root, e)[i]
    requires forall i :: 0 <= i < |m| - 1 ==> m[i].ok
    ensures !m[|m| - 1].ok ==> Carried(m, AddCalls(root, e), |FirmCalls(root, e)|) && !AddOk(root, e, m)
  {
    hide FirmCalls, AttachCalls;
  }

  /** ... and one that comes to the hooks. */
  lemma AttachedAdd(root: Path, e: LoaderEndpoint, m: seq<Made>, attached: seq<Made>, failures: seq<string>)
    requires |m| == |FirmCalls(root, e)| && AllOk(m) && forall i :: 0 <= i < |m| ==> m[i].call == FirmCalls(root, e)[i]
    requires Carried(attached, AttachCalls(root, e.EndpointKind(), e.link), 0)
    requires FailedHooks(e.EndpointKind(), attached, failures)
    ensures Carried(m + attached, AddCalls(root, e), |FirmCalls(root, e)|)
    ensures AddOk(root, e, m + attached) <==> failures == []
  {
    hide FirmCalls, AttachCalls, Hooks;
    var k, all := e.EndpointKind(), m + attached;
    assert forall i :: |m| <= i < |all| ==> all[i] == attached[i - |m|];
    if failures != [] {
      assert failures[0] in failures;
      var i :| 0 <= i < |attached| && Hooks(k)[i].program == failures[0] && Hooks(k)[i].required && !attached[i].ok;
      assert !all[|m| + i].ok;
    } else {
      forall i | 0 <= i < |attached| && Hooks(k)[i].required ensures attached[i].ok {
        assert Hooks(k)[i].program !in failures;
      }
    }
  }

  class BpfLoader {
    const root: Path
    const backend: Backend

    constructor (root: Path, backend: Backend)
      ensures this.root == root && this.backend == backend
    {
      this.root, this.backend := root, backend;
    }

    /** `write_container_maps`. */
    method WriteContainerMaps(ghost p: Promise, e: LoaderEndpoint) returns (ok: bool)
      requires backend.Valid(p)
      modifies backend
      ensures backend.Valid(p) && old(backend.log) <= backend.log
      ensures Includes(old(backend.world), backend.world) && backend.world.pins == old(backend.world.pins)
      ensures ok ==> ConfigPath(root, e.link) in backend.world.written && (set ip | ip in e.Ips()) <= backend.world.lxc
      ensures old(backend.made) <= backend.made
      ensures var m := backend.made[|old(backend.made)|..];
              && Carried(m, [SetConfig(ConfigPath(root, e.link)), UpsertInfo(set ip | ip in e.Ips())], 2)
              && (ok <==> |m| == 2 && AllOk(m))
      ensures backend.faults >= old(backend.faults) && (backend.faults == old(backend.faults) ==> ok)
    {
      hide Backend.Valid;
      ok := backend.Perform(p, SetConfig(ConfigPath(root, e.link)));
      if ok {
        ok := backend.Perform(p, UpsertInfo(set ip | ip in e.Ips()));
        assert backend.made[|old(backend.made)|..][1].ok == ok;
      } else {
        assert !backend.made[|old(backend.made)|..][0].ok;
      }
    }

    /** Attaches every hook of the endpoint, collecting the required ones that fail. */
    method AttachHooks(ghost p: Promise, k: Kind, link: string) returns (failures: seq<string>)
      requires backend.Valid(p) && p.root == root && p.OneKind(k, link)
      requires k == Container ==>
                 ConfigPath(root, link) in backend.world.pins && ConfigPath(root, link) in backend.world.written
      modifies backend
      ensures backend.Valid(p) && old(backend.log) <= backend.log
      ensures Includes(old(backend.world), backend.world)
      ensures GrowsUnder(root, old(backend.world.pins), backend.world.pins, k, link)
      ensures failures == [] ==> AllPinned(root, backend.world.pins, (k, link))
      ensures old(backend.made) <= backend.made
      ensures var m := backend.made[|old(backend.made)|..];
              && Carried(m, AttachCalls(root, k, link), 0) && FailedHooks(k, m, failures)
      ensures backend.faults >= old(backend.faults) && (backend.faults == old(backend.faults) ==> failures == [])
    {
      hide Backend.Valid, ConfigPath, StepInv, LinksDir, FailedHooks;
      failures := [];
      var hooks := Hooks(k);
      ghost var m: seq<Made> := [];
      assert FailedHooks(k, m, failures) by { NoFailures(k); }
      assert |AttachCalls(root, k, link)| == |hooks|;
      hide Hooks;
      for n := 0 to |hooks|
        invariant backend.Valid(p) && old(backend.log) <= backend.log
        invariant Includes(old(backend.world), backend.world)
        invariant GrowsUnder(root, old(backend.world.pins), backend.world.pins, k, link)
        invariant failures == [] ==> forall j :: 0 <= j < n && hooks[j].required ==>
                    EndpointLinkDir(root, k, link) + [hooks[j].program] in backend.world.pins
        invariant backend.made == old(backend.made) + m && |m| == n && FailedHooks(k, m, failures)
        invariant forall i :: 0 <= i < n ==> m[i].call == AttachCalls(root, k, link)[i]
        invariant backend.faults >= old(backend.faults)
        invariant backend.faults == old(backend.faults) ==> failures == []
      {
        var pin := EndpointLinkDir(root, k, link) + [hooks[n].program];
        assert EndpointLinkDir(root, k, link) <= pin;
        ghost var was := failures;
        var ok := backend.Perform(p, Attach(pin, hooks[n].side));
        if !ok && hooks[n].required {
          failures := failures + [hooks[n].program];
        }
        AttachOne(root, k, link, m, was, ok, failures);
        m := m + [Made(Attach(pin, hooks[n].side), ok)];
      }
    }

    /** `add_loader_endpoint`: maps are pinned and written before any hook is attached. */
    method AddLoaderEndpoint(ghost p: Promise, e: LoaderEndpoint) returns (err: Option<LoadError>)
      requires e.Valid() && backend.Valid(p) && p.root == root && p.OneKind(e.EndpointKind(), e.link)
      modifies backend
      ensures backend.Valid(p) && old(backend.log) <= backend.log
      ensures Includes(old(backend.world), backend.world)
      ensures GrowsUnder(root, old(backend.world.pins), backend.world.pins, e.EndpointKind(), e.link)
      ensures err.None? ==> AllPinned(root, backend.world.pins, (e.EndpointKind(), e.link))
                            && (set ip | ip in e.Ips()) <= backend.world.lxc
      ensures old(backend.made) <= backend.made
      ensures var m := backend.made[|old(backend.made)|..];
              && Carried(m, AddCalls(root, e), |FirmCalls(root, e)|) && (err.None? <==> AddOk(root, e, m))
      ensures backend.faults >= old(backend.faults) && (backend.faults == old(backend.faults) ==> err.None?)
    {
      hide Backend.Valid, ConfigPath, StepInv, MapPins, LinksDir, AllPinned, Carried, AddOk, FailedHooks, AllOk,
        FirmCalls;
      ghost var was := backend.made;
      var ok := PrepareMaps(p, e);
      ghost var prepared := backend.made;
      ghost var m := prepared[|was|..];
      StoppedAdd(root, e, m);
      if !ok { return Some(CallFailed); }
      var failures := AttachHooks(p, e.EndpointKind(), e.link);
      err := if failures != [] then Some(PartiallyAttached(failures)) else None;
      ghost var attached := backend.made[|prepared|..];
      assert backend.made[|was|..] == m + attached;
      AttachedAdd(root, e, m, attached, failures);
    }

    /** The part of an add up to the hooks: each failure ends it. */
    method PrepareMaps(ghost p: Promise, e: LoaderEndpoint) returns (ok: bool)
      requires e.Valid() && backend.Valid(p) && p.root == root && p.OneKind(e.EndpointKind(), e.link)
      modifies backend
      ensures backend.Valid(p) && old(backend.log) <= backend.log
      ensures Includes(old(backend.world), backend.world)
      ensures GrowsUnder(root, old(backend.world.pins), backend.world.pins, e.EndpointKind(), e.link)
      ensures ok ==> (set ip | ip in e.Ips()) <= backend.world.lxc
      ensures ok && e.ContainerEndpoint? ==>
                ConfigPath(root, e.link) in backend.world.pins && ConfigPath(root, e.link) in backend.world.written
      ensures old(backend.made) <= backend.made
      ensures var m := backend.made[|old(backend.made)|..];
              && 0 < |m| <= |FirmCalls(root, e)| && (forall i :: 0 <= i < |m| ==> m[i].call == FirmCalls(root, e)[i])
              && (forall i :: 0 <= i < |m| - 1 ==> m[i].ok)
              && ok == m[|m| - 1].ok && (ok ==> |m| == |FirmCalls(root, e)| && AllOk(m))
      ensures backend.faults >= old(backend.faults) && (backend.faults == old(backend.faults) ==> ok)
    {
      hide Backend.Valid, ConfigPath, StepInv, MapPins, LinksDir, GrowsUnder;
      var k, link := e.EndpointKind(), e.link;
      ghost var was, pins := backend.made, backend.world.pins;
      ok := backend.Read(ResolveLink(link));
      NothingGrown(root, pins, k, link);
      Suffix(was, [Made(ResolveLink(link), ok)]);
      if !ok { return; }
      MapPinsOutsideLinks(root, k, link);
      ok := backend.Perform(p, LoadInstance(MapPins(root, k, link)));
      MapsGrown(root, pins, backend.world.pins, k, link);
      ghost var loaded := backend.made;
      ghost var m := [Made(ResolveLink(link), true), Made(LoadInstance(MapPins(root, k, link)), ok)];
      assert loaded == was + m;
      if ok && e.ContainerEndpoint? {
        ok := WriteContainerMaps(p, e);
        ghost var written := backend.made[|loaded|..];
        OneMoreMade(was, m, loaded, backend.made);
        PreparedMade(root, e, written, ok);
        m := m + written;
      }
      Suffix(was, m);
      assert backend.made == was + m;
    }

    /** Unpins the maps of an endpoint whose programs are gone, stopping at a failure. */
    method UnpinMaps(ghost p: Promise, k: Kind, link: string) returns (ok: bool)
      requires backend.Valid(p) && p.root == root && p.OneKind(k, link)
      requires Under(backend.world.pins, EndpointLinkDir(root, k, link)) == {}
      modifies backend
      ensures backend.Valid(p) && old(backend.log) <= backend.log
      ensures backend.world.lxc == old(backend.world.lxc)
      ensures ok ==> backend.world == Unpinned(old(backend.world), MapPaths(root, PerEndpointMaps(k), link))
      ensures exists n :: 0 <= n <= |PerEndpointMaps(k)|
                          && backend.world
                             == Unpinned(old(backend.world), MapPaths(root, PerEndpointMaps(k)[..n], link))
      ensures old(backend.made) <= backend.made
      ensures var m, calls := backend.made[|old(backend.made)|..], UnpinCalls(root, k, link);
              CarriedOut(m, calls, ok)
      ensures backend.faults >= old(backend.faults) && (backend.faults == old(backend.faults) ==> ok)
    {
      hide Backend.Valid, PerEndpointMapPath, LinksDir, Promise.Keeps, Promise.Allows, EndpointLinkDir, MapPaths;
      var maps := PerEndpointMaps(k);
      ghost var calls, was := UnpinCalls(root, k, link), backend.made;
      ghost var m: seq<Made> := [];
      assert forall i :: 0 <= i < |maps| ==> calls[i] == Unpin(PerEndpointMapPath(root, maps[i], link));
      hide PerEndpointMaps, UnpinCalls, CarriedOut;
      NothingUnpinned(root, backend.world, maps[..0], link);
      for n := 0 to |maps|
        invariant backend.Valid(p) && old(backend.log) <= backend.log
        invariant backend.world == Unpinned(old(backend.world), MapPaths(root, maps[..n], link))
        invariant backend.faults == old(backend.faults)
        invariant backend.made == was + m && |m| == n && SoFar(m, calls)
      {
        backend.KeptNow(p);
        UnpinAllowed(p, |backend.log|, backend.world, k, link, maps[n]);
        OneUnpinned(root, old(backend.world), maps, n, link);
        ok := backend.Perform(p, Unpin(PerEndpointMapPath(root, maps[n], link)));
        CutCarried(m, calls);
        m := m + [Made(calls[n], ok)];
        assert backend.made == was + m && backend.made[|was|..] == m;
        if !ok { return; }
      }
      AllCarried(m, calls);
      assert backend.made[|was|..] == m && maps[..|maps|] == maps;
      ok := true;
    }

    /** `detach_loader_endpoint`: programs first, then the maps. */
    method DetachLoaderEndpoint(ghost p: Promise, k: Kind, link: string) returns (ok: bool)
      requires backend.Valid(p) && p.root == root && p.OneKind(k, link) && p.Dispensable(k, link)
      modifies backend
      ensures backend.Valid(p) && old(backend.log) <= backend.log
      ensures backend.world.lxc == old(backend.world.lxc)
      ensures ok ==> backend.world == Detached(root, old(backend.world), k, link)
      ensures Includes(Detached(root, old(backend.world), k, link), backend.world)
              && Includes(backend.world, old(backend.world))
      ensures old(backend.made) <= backend.made
      ensures CarriedOut(backend.made[|old(backend.made)|..], DetachCalls(root, k, link), ok)
      ensures backend.faults >= old(backend.faults) && (backend.faults == old(backend.faults) ==> ok)
    {
      hide Backend.Valid, PerEndpointMapPath, LinksDir, Promise.Keeps, Promise.Allows, Promise.Dispensable,
        EndpointLinkDir, PerEndpointMaps, MapPaths, CarriedOut, DetachCalls, UnpinCalls;
      var dir := EndpointLinkDir(root, k, link);
      ghost var was := backend.made;
      RemoveDirAllowed(p, |backend.log|, backend.world, k, link);
      ok := backend.Perform(p, RemoveDir(dir));
      ghost var first, calls := backend.made, DetachCalls(root, k, link);
      Suffix(was, [Made(RemoveDir(dir), ok)]);
      FirstDetach(root, k, link);
      if ok {
        ok := UnpinMaps(p, k, link);
        ghost var m := backend.made[|first|..];
        OneMoreMade(was, [Made(RemoveDir(dir), true)], first, backend.made);
        Suffix(was, [Made(RemoveDir(dir), true)] + m);
        ThenDetach(root, k, link, m, ok);
        ghost var n :| 0 <= n <= |PerEndpointMaps(k)| && backend.world
            == Unpinned(Done(old(backend.world), RemoveDir(dir)), MapPaths(root, PerEndpointMaps(k)[..n], link));
        PartlyDetached(root, old(backend.world), k, link, n, backend.world);
      }
    }

    /** `remove_loader_endpoint`: addresses first, so nothing is routed to it any more. */
    method RemoveLoaderEndpoint(ghost p: Promise, e: LoaderEndpoint) returns (ok: bool)
      requires e.Valid() && backend.Valid(p) && p.root == root && p.OneKind(e.EndpointKind(), e.link)
      requires p.desired.None?
      modifies backend
      ensures backend.Valid(p) && old(backend.log) <= backend.log
      ensures ok ==> backend.world == Detached(root, old(WithoutAddresses(backend.world, e)), e.EndpointKind(), e.link)
      ensures !ok ==> backend.world.pins == old(backend.world.pins)
                      || backend.world.lxc == old(WithoutAddresses(backend.world, e)).lxc
      ensures old(backend.made) <= backend.made
      ensures CarriedOut(backend.made[|old(backend.made)|..], RemoveCalls(root, e), ok)
      ensures backend.faults >= old(backend.faults) && (backend.faults == old(backend.faults) ==> ok)
    {
      hide Backend.Valid, LinksDir, EndpointLinkDir, PerEndpointMaps, CarriedOut, DetachCalls;
      var ips := e.Ips();
      ghost var m: seq<Made>, was, calls := [], backend.made, RemoveCalls(root, e);
      for n := 0 to |ips|
        invariant backend.Valid(p) && backend.faults == old(backend.faults) && old(backend.log) <= backend.log
        invariant backend.made == was + m && |m| == n && SoFar(m, calls)
        invariant backend.world == old(backend.world).(lxc := old(backend.world.lxc) - set ip | ip in ips[..n])
      {
        ok := backend.Perform(p, RemoveInfo(ips[n]));
        CutCarried(m, calls);
        m := m + [Made(calls[n], ok)];
        assert backend.made == was + m && backend.made[|was|..] == m;
        if !ok { return; }
        assert ips[..n + 1] == ips[..n] + [ips[n]];
      }
      assert ips[..|ips|] == ips;
      ghost var removed := backend.made;
      ok := DetachLoaderEndpoint(p, e.EndpointKind(), e.link);
      assert backend.made[|was|..] == m + backend.made[|removed|..];
      ThenCarried(m, calls[..|ips|], backend.made[|removed|..], DetachCalls(root, e.EndpointKind(), e.link), ok);
      assert calls == calls[..|ips|] + DetachCalls(root, e.EndpointKind(), e.link);
    }

    /** `list_loader_endpoints`. */
    method ListLoaderEndpoints() returns (listed: Option<set<(Kind, string)>>)
      modifies backend`made, backend`faults
      ensures listed.Some? ==> ListsExactly(root, backend.world.pins, listed.value)
      ensures backend.made == old(backend.made) + [Made(ListPins(LinksDir(root)), listed.Some?)]
      ensures backend.faults >= old(backend.faults) && (backend.faults == old(backend.faults) ==> listed.Some?)
    {
      var matched: map<(Kind, string), set<string>> := map[];
      assert Matches(root, {}, matched);
      hide Hooks, LinksDir, Listed, PinsProgram, Matches, MatchPin, EndpointOf, Complete, ListsExactly;
      var ok := backend.Read(ListPins(LinksDir(root)));
      if !ok { return None; }
      ghost var seen: set<Path> := {};
      var todo := Under(backend.world.pins, LinksDir(root));
      while todo != {}
        invariant seen + todo == Under(backend.world.pins, LinksDir(root)) && backend.faults == old(backend.faults)
        invariant backend.made == old(backend.made) + [Made(ListPins(LinksDir(root)), true)]
        invariant Matches(root, seen, matched)
        decreases |todo|
      {
        var p :| p in todo;
        MatchedStep(root, seen, p, matched);
        ghost var before := matched;
        var parsed := EndpointOf(root, p);
        if parsed.Some? && MatchPin(parsed.value.0, p[|p| - 1]) {
          var e := parsed.value;
          matched := matched[e := (if e in matched then matched[e] else {}) + {p[|p| - 1]}];
        }
        assert matched == Matched(root, p, before);
        seen, todo := seen + {p}, todo - {p};
      }
      assert seen == Under(backend.world.pins, LinksDir(root));
      FilterIsListing(root, backend.world.pins, matched);
      listed := Some(set e | e in matched && Complete(matched, e));
    }

    /** The first phase of `reconcile`: adds every desired endpoint. */
    method AddAll(ghost p: Promise, desired: seq<LoaderEndpoint>)
      returns (errors: seq<(Kind, string)>, ghost parts: seq<seq<Made>>)
      requires backend.Valid(p) && p.root == root
      requires forall e :: e in desired ==> e.Valid() && p.OneKind(e.EndpointKind(), e.link)
      modifies backend
      ensures backend.Valid(p) && old(backend.log) <= backend.log
      ensures AddedBut(root, backend.world, desired, errors) && forall e :: e in errors ==> e in Wanted(desired)
      ensures forall e :: Listed(root, backend.world.pins, e) && e !in Wanted(desired) ==>
              Listed(root, old(backend.world.pins), e)
      ensures Adds(root, desired, parts) && backend.made == old(backend.made) + Flat(parts)
      ensures errors == AddErrors(root, desired, parts)
      ensures backend.faults >= old(backend.faults) && (backend.faults == old(backend.faults) ==> errors == [])
    {
      hide Backend.Valid, Listed, AllPinned, LoaderEndpoint.Valid, Promise.OneKind, AddedBut, GrowsUnder, Carried,
        AddOk, AddCalls, FirmCalls;
      errors, parts := [], [];
      assert Adds(root, desired[..0], parts) && errors == AddErrors(root, desired[..0], parts);
      hide Adds, AddErrors, Flat;
      assert Flat([]) == [] by { FlatNothing(); }
      assert AddedBut(root, backend.world, desired[..0], []) by { NothingAdded(root, backend.world, desired[..0]); }
      for n := 0 to |desired|
        invariant backend.Valid(p) && old(backend.log) <= backend.log
        invariant AddedBut(root, backend.world, desired[..n], errors)
        invariant forall e :: e in errors ==> e in Wanted(desired)
        invariant |parts| == n && Adds(root, desired[..n], parts) && backend.made == old(backend.made) + Flat(parts)
        invariant errors == AddErrors(root, desired[..n], parts)
        invariant forall e :: Listed(root, backend.world.pins, e) && e !in Wanted(desired) ==>
                    Listed(root, old(backend.world.pins), e)
        invariant backend.faults >= old(backend.faults)
        invariant backend.faults == old(backend.faults) ==> errors == []
      {
        var e := desired[n];
        ghost var before, was, made := backend.world, errors, backend.made;
        var err := AddLoaderEndpoint(p, e);
        if err.Some? {
          errors := errors + [e.Key()];
        } else {
          OneAdded(root, backend.world, e);
        }
        AddedMore(root, before, backend.world, desired, n, was, errors);
        ghost var m := backend.made[|made|..];
        assert backend.made == made + m;
        AddsMore(root, desired, n, parts, m, err.None?);
        parts := parts + [m];
        forall other | Listed(root, backend.world.pins, other) && other !in Wanted(desired)
          ensures Listed(root, before.pins, other)
        {
          OthersNotNew(root, before.pins, backend.world.pins, e.Key(), other);
        }
      }
      assert desired[..|desired|] == desired;
    }

    /** The second phase: detaches every listed endpoint that is not wanted. */
    method DetachStale(ghost p: Promise, existing: set<(Kind, string)>, wanted: set<(Kind, string)>)
      returns (errors: seq<(Kind, string)>, ghost order: seq<(Kind, string)>, ghost parts: seq<seq<Made>>)
      requires backend.Valid(p) && p.root == root && ListsExactly(root, backend.world.pins, existing)
      requires p.desired.Some? && wanted == Wanted(p.desired.value)
      modifies backend
      ensures backend.Valid(p) && old(backend.log) <= backend.log && backend.world.lxc == old(backend.world.lxc)
      ensures ListsBut(root, backend.world.pins, existing * wanted, errors)
      ensures forall e :: e in errors ==> e in existing - wanted
      ensures Detaches(root, order, parts) && backend.made == old(backend.made) + Flat(parts)
      ensures errors == DetachErrors(root, order, parts) && Lists(order, existing - wanted)
      ensures backend.faults >= old(backend.faults) && (backend.faults == old(backend.faults) ==> errors == [])
    {
      hide Backend.Valid, ListsExactly, ListsBut, Detached, Detachable, LinksDir, EndpointLinkDir, PerEndpointMapPath,
        PerEndpointMaps, Under, Wanted, Promise.Keeps, Promise.OneKind, Promise.Dispensable;
      assert Detachable(p, existing - wanted) by {
        backend.KeptNow(p);
        StaleDetachable(p, backend.world, existing, wanted);
      }
      errors, order, parts := [], [], [];
      ghost var stale, done, was := existing - wanted, {}, backend.made;
      DetachingStart(root, was);
      hide Detaching, Detaches, DetachErrors, Flat, CarriedOut, DetachCalls, Lists;
      ExactlyListsBut(root, backend.world.pins, existing);
      assert existing - done == existing;
      var todo := existing - wanted;
      while todo != {}
        invariant backend.Valid(p) && old(backend.log) <= backend.log && backend.world.lxc == old(backend.world.lxc)
        invariant done + todo == stale && done !! todo
        invariant ListsBut(root, backend.world.pins, existing - done, errors)
        invariant Detaching(root, was, backend.made, done, order, parts, errors)
        invariant backend.faults >= old(backend.faults)
        invariant backend.faults == old(backend.faults) ==> errors == []
        decreases |todo|
      {
        var e :| e in todo;
        ghost var made, sure, maybe := backend.made, existing - done, errors;
        DetachableOne(p, stale, e);
        var ok := DetachOne(p, e, sure, maybe);
        if !ok { errors := errors + [e]; }
        DetachingMore(root, was, made, backend.made, done, order, parts, maybe, e, ok);
        order, parts := order + [e], parts + [backend.made[|made|..]];
        OneMoreDone(existing, stale, done, todo, e);
        todo, done := todo - {e}, done + {e};
      }
      assert done == stale && existing - done == existing * wanted;
      DetachingDone(root, was, backend.made, stale, order, parts, errors);
    }

    /** One detach of the second phase, as the listing shows it. */
    method DetachOne(ghost p: Promise, e: (Kind, string), ghost sure: set<(Kind, string)>,
                     ghost maybe: seq<(Kind, string)>)
      returns (ok: bool)
      requires backend.Valid(p) && p.root == root && p.OneKind(e.0, e.1) && p.Dispensable(e.0, e.1)
      requires ListsBut(root, backend.world.pins, sure, maybe)
      modifies backend
      ensures backend.Valid(p) && old(backend.log) <= backend.log && backend.world.lxc == old(backend.world.lxc)
      ensures ListsBut(root, backend.world.pins, sure - {e}, if ok then maybe else maybe + [e])
      ensures old(backend.made) <= backend.made
      ensures CarriedOut(backend.made[|old(backend.made)|..], DetachCalls(root, e.0, e.1), ok)
      ensures backend.faults >= old(backend.faults) && (backend.faults == old(backend.faults) ==> ok)
    {
      hide Backend.Valid, ListsBut, Detached, CarriedOut, DetachCalls, Includes, Promise.OneKind, Promise.Dispensable;
      ghost var before := backend.world;
      ok := DetachLoaderEndpoint(p, e.0, e.1);
      DetachedBut(root, before, backend.world, sure, maybe, e);
    }

    /** The last phase: drops every address no desired container owns. */
    method DropAddresses(ghost p: Promise, wantedIps: set<IpAddr>) returns (ok: bool)
      requires backend.Valid(p) && p.root == root
      requires p.desired.Some? && wantedIps == WantedIps(p.desired.value)
      modifies backend
      ensures backend.Valid(p) && old(backend.log) <= backend.log && backend.world.pins == old(backend.world.pins)
      ensures ok ==> backend.world.lxc == old(backend.world.lxc) * wantedIps
      ensures old(backend.made) <= backend.made
      ensures var m := backend.made[|old(backend.made)|..]; Drops(wantedIps, m) && ok == m[|m| - 1].ok
      ensures backend.faults >= old(backend.faults) && (backend.faults == old(backend.faults) ==> ok)
    {
      hide Backend.Valid, WantedIps, Drops;
      ghost var was, before := backend.made, backend.world.lxc;
      ok := backend.Read(ListInfos);
      ghost var m := [Made(ListInfos, ok)];
      DropsStart(wantedIps, ok);
      Suffix(was, m);
      if !ok { return; }
      var todo := backend.world.lxc;
      while todo != {}
        invariant backend.Valid(p) && old(backend.log) <= backend.log && backend.world.pins == old(backend.world.pins)
        invariant todo <= before && backend.world.lxc == before * wantedIps + todo
        invariant backend.made == was + m && m != [] && Drops(wantedIps, m) && m[|m| - 1].ok
        invariant backend.faults == old(backend.faults)
        decreases |todo|
      {
        var ip :| ip in todo;
        OneDropped(before, wantedIps, todo, backend.world.lxc, ip);
        if ip !in wantedIps {
          ok := backend.Perform(p, RemoveInfo(ip));
          DropsMore(wantedIps, m, ip, ok);
          Onward(was, m, Made(RemoveInfo(ip), ok));
          m := m + [Made(RemoveInfo(ip), ok)];
          Suffix(was, m);
          if !ok { return; }
        }
        todo := todo - {ip};
      }
      Suffix(was, m);
      ok := true;
    }

    /** `reconcile`. Whatever fails, no call touches a desired endpoint's programs or a
        desired address; and with no error at all the listing and the addresses are
        exactly the desired ones, whatever they were before. */
    method Reconcile(ghost kinds: Option<map<string, Kind>>, desired: seq<LoaderEndpoint>)
      returns (result: Reconciled, ghost course: Course)
      requires backend.Valid(Promise(root, kinds, None, 0))
      requires forall e :: e in desired ==> e.Valid() && Promise(root, kinds, None, 0).OneKind(e.EndpointKind(), e.link)
      modifies backend
      ensures backend.Valid(Promise(root, kinds, Some(desired), |old(backend.log)|)) && old(backend.log) <= backend.log
      ensures backend.Valid(Promise(root, kinds, None, 0))
      ensures old(backend.made) <= backend.made
      ensures Runs(root, desired, course, backend.made[|old(backend.made)|..], result)
      ensures result.Finished? ==> ReconciledBut(root, old(backend.world), backend.world, desired, result.errors)
      ensures result == Finished([]) ==>
                ListsExactly(root, backend.world.pins, Wanted(desired)) && backend.world.lxc == WantedIps(desired)
      ensures backend.faults >= old(backend.faults)
              && (backend.faults == old(backend.faults) ==> result == Finished([]))
    {
      hide Backend.Valid, Wanted, WantedIps, Listed, AddedBut, ListsBut, ListsExactly, ReconciledBut, Adds, Detaches,
        Drops, AddErrors, DetachErrors, Flat;
      ghost var was := backend.made;
      ghost var open, p := Promise(root, kinds, None, 0), Promise(root, kinds, Some(desired), |backend.log|);
      backend.PromiseMore(open, p);
      var wanted := Wanted(desired);
      var errors, adds := AddAll(p, desired);
      ghost var added := backend.world;
      var listed := ListLoaderEndpoints();
      course := Course(adds, false, [], [], []);
      NoDetaches(root);
      assert backend.made[|was|..] == Flat(adds) + [Made(ListPins(LinksDir(root)), listed.Some?)];
      if listed.None? { backend.PromiseMore(p, open); return Aborted, course; }
      var detachErrors, order, detaches := DetachStale(p, listed.value, wanted);
      ghost var detached, made := backend.world, backend.made;
      var ok := DropAddresses(p, WantedIps(desired));
      course := Course(adds, true, order, detaches, backend.made[|made|..]);
      assert backend.made[|was|..]
          == Flat(adds) + [Made(ListPins(LinksDir(root)), true)] + Flat(detaches) + course.drops;
      backend.PromiseMore(p, open);
      if !ok { return Aborted, course; }
      PhasesReconcile(root, old(backend.world), added, detached, backend.world, desired, errors, listed.value,
                      detachErrors);
      result := Finished(errors + detachErrors);
    }
  }

  /** The three phases together. */
  lemma PhasesReconcile(root: Path, w: World, added: World, detached: World, w': World, desired: seq<LoaderEndpoint>,
                        addErrors: seq<(Kind, string)>, existing: set<(Kind, string)>,
                        detachErrors: seq<(Kind, string)>)
    requires AddedBut(root, added, desired, addErrors) && forall e :: e in addErrors ==> e in Wanted(desired)
    requires forall e :: Listed(root, added.pins, e) && e !in Wanted(desired) ==> Listed(root, w.pins, e)
    requires ListsExactly(root, added.pins, existing) && detached.lxc == added.lxc
    requires ListsBut(root, detached.pins, existing * Wanted(desired), detachErrors)
    requires forall e :: e in detachErrors ==> e in existing - Wanted(desired)
    requires w'.pins == detached.pins && w'.lxc == detached.lxc * WantedIps(desired)
    ensures ReconciledBut(root, w, w', desired, addErrors + detachErrors)
    ensures addErrors + detachErrors == [] ==>
              ListsExactly(root, w'.pins, Wanted(desired)) && w'.lxc == WantedIps(desired)
  {
    hide Listed;
    var errors := addErrors + detachErrors;
    forall e | e in desired && e.Key() !in errors
      ensures Listed(root, w'.pins, e.Key()) && forall ip :: ip in e.Ips() ==> ip in w'.lxc
    {
      assert e.Key() !in addErrors && e.Key() in Wanted(desired);
      assert e.Key() in existing;
      assert forall ip :: ip in e.Ips() ==> ip in WantedIps(desired);
    }
    if errors == [] {
      assert addErrors == [] && detachErrors == [];
      assert forall e :: e in Wanted(desired) ==> Listed(root, w'.pins, e);
      assert WantedIps(desired) <= w'.lxc;
    }
  }
}
