/** The on-disk layout of BPF pins: endpoint kinds, their programs and maps, and the
    paths they are pinned at. A path is the sequence of its components; a link name is
    one component. */
module Pins {
  import opened Bytes

  type Path = seq<string>

  datatype Kind = Container | Host | NetDev | Overlay | Wireguard

  datatype Side = Ingress | Egress

  datatype Hook = Hook(program: string, side: Side, required: bool)

  datatype EndpointMap = CallsMap | EndpointConfigMap

  datatype GlobalMap = LxcMap | MetricsMap

  function KindStr(k: Kind): string
  {
    match k
    case Container => "container"
    case Host => "host"
    case NetDev => "netdev"
    case Overlay => "overlay"
    case Wireguard => "wireguard"
  }

  function FromKindStr(s: string): (k: Option<Kind>)
    ensures forall kind :: k == Some(kind) <==> s == KindStr(kind)
  {
    assert KindStr(Container)[0] == 'c' && KindStr(Host)[0] == 'h' && KindStr(NetDev)[0] == 'n';
    assert KindStr(Overlay)[0] == 'o' && KindStr(Wireguard)[0] == 'w';
    if s == "container" then Some(Container)
    else if s == "host" then Some(Host)
    else if s == "netdev" then Some(NetDev)
    else if s == "overlay" then Some(Overlay)
    else if s == "wireguard" then Some(Wireguard)
    else None
  }

  function Hooks(k: Kind): (hooks: seq<Hook>)
    ensures exists h :: h in hooks && h.required
  {
    var hooks := match k
      case Container => [Hook("from_container", Ingress, true), Hook("to_container", Egress, true)]
      case Host => [Hook("from_host", Egress, true), Hook("to_host", Ingress, true)]
      case NetDev => [Hook("from_netdev", Ingress, true), Hook("to_netdev", Egress, true)]
      case Overlay => [Hook("from_overlay", Ingress, true), Hook("to_overlay", Egress, true)]
      case Wireguard => [Hook("from_wireguard", Ingress, true), Hook("to_wireguard", Egress, true)];
    assert hooks[0] in hooks && hooks[0].required;
    hooks
  }

  function PerEndpointMaps(k: Kind): seq<EndpointMap>
  {
    match k
    case Container => [CallsMap, EndpointConfigMap]
    case Host => [CallsMap, EndpointConfigMap]
    case _ => [CallsMap]
  }

  function WireName(m: EndpointMap): string
  {
    match m case CallsMap => "calls_map" case EndpointConfigMap => "endpoint_config"
  }

  function GlobalWireName(m: GlobalMap): string
  {
    match m case LxcMap => "lxc_map" case MetricsMap => "metrics_map"
  }

  function LinksDir(root: Path): Path { root + ["links"] }

  function EndpointLinkDir(root: Path, k: Kind, link: string): Path { LinksDir(root) + [KindStr(k), link] }

  function PerEndpointMapPath(root: Path, m: EndpointMap, link: string): Path
  {
    root + ["globals", WireName(m) + "_" + link]
  }

  function GlobalMapPath(root: Path, m: GlobalMap): Path { root + ["globals", GlobalWireName(m)] }

  /** Where everything is pinned. */
  lemma PathsSpelledOut(root: Path, k: Kind, link: string)
    ensures LinksDir(root) == root + ["links"] && EndpointLinkDir(root, k, link) == root + ["links", KindStr(k), link]
    ensures PerEndpointMapPath(root, CallsMap, link) == root + ["globals", "calls_map_" + link]
    ensures PerEndpointMapPath(root, EndpointConfigMap, link) == root + ["globals", "endpoint_config_" + link]
    ensures GlobalMapPath(root, LxcMap) == root + ["globals", "lxc_map"]
    ensures GlobalMapPath(root, MetricsMap) == root + ["globals", "metrics_map"]
  {
    assert "calls_map" + "_" == "calls_map_" && "endpoint_config" + "_" == "endpoint_config_";
  }

  /** What each kind of endpoint has: its directory, its hooks, the side of the link each is
      attached at, and its maps. Everything is required; only container and host have a config. */
  lemma KindsSpelledOut(k: Kind)
    ensures KindStr(Container) == "container" && KindStr(Host) == "host" && KindStr(NetDev) == "netdev"
    ensures KindStr(Overlay) == "overlay" && KindStr(Wireguard) == "wireguard"
    ensures |Hooks(k)| == 2 && Hooks(k)[0].required && Hooks(k)[1].required
    ensures Hooks(k)[0].program == "from_" + KindStr(k) && Hooks(k)[1].program == "to_" + KindStr(k)
    ensures Hooks(k)[0].side == (if k == Host then Egress else Ingress)
    ensures Hooks(k)[1].side == (if k == Host then Ingress else Egress)
    ensures PerEndpointMaps(k) == if k == Container || k == Host then [CallsMap, EndpointConfigMap] else [CallsMap]
  {
    assert "from_" + "container" == "from_container" && "to_" + "container" == "to_container";
    assert "from_" + "host" == "from_host" && "to_" + "host" == "to_host";
    assert "from_" + "netdev" == "from_netdev" && "to_" + "netdev" == "to_netdev";
    assert "from_" + "overlay" == "from_overlay" && "to_" + "overlay" == "to_overlay";
    assert "from_" + "wireguard" == "from_wireguard" && "to_" + "wireguard" == "to_wireguard";
  }

  /** `parse_pin_subpath`: the first two components; what follows is ignored. */
  function ParsePinSubpath(path: Path): Option<(Kind, string)>
  {
    if |path| < 2 || FromKindStr(path[0]).None? then None
    else Some((FromKindStr(path[0]).value, path[1]))
  }

  /** Parsing undoes building for every kind and link, whatever is nested below. */
  lemma PinSubpathRoundTrip(k: Kind, link: string, below: Path)
    ensures ParsePinSubpath([KindStr(k), link] + below) == Some((k, link))
  {
    assert FromKindStr(KindStr(k)) == Some(k);
  }

  /** A pin lies under the directory of at most one endpoint. */
  lemma LinkDirsDisjoint(root: Path, p: Path, k: Kind, link: string, k': Kind, link': string)
    requires EndpointLinkDir(root, k, link) <= p && EndpointLinkDir(root, k', link') <= p
    ensures k == k' && link == link'
  {
    var n := |root| + 1;
    assert EndpointLinkDir(root, k, link)[n] == p[n] == EndpointLinkDir(root, k', link')[n];
    assert EndpointLinkDir(root, k, link)[n + 1] == p[n + 1] == EndpointLinkDir(root, k', link')[n + 1];
    assert FromKindStr(KindStr(k)) == Some(k) && FromKindStr(KindStr(k')) == Some(k');
  }

  /** Map pins never lie among the link pins, and distinct maps have distinct paths. */
  lemma MapPathsDistinct(root: Path, m: EndpointMap, link: string, m': EndpointMap, link': string, g: GlobalMap)
    ensures !(LinksDir(root) <= PerEndpointMapPath(root, m, link)) && !(LinksDir(root) <= GlobalMapPath(root, g))
    ensures PerEndpointMapPath(root, m, link) == PerEndpointMapPath(root, m', link') ==> m == m' && link == link'
    ensures PerEndpointMapPath(root, m, link) != GlobalMapPath(root, g)
  {
    var p, p', n := PerEndpointMapPath(root, m, link), PerEndpointMapPath(root, m', link'), |root|;
    var name, name' := WireName(m) + "_" + link, WireName(m') + "_" + link';
    assert LinksDir(root)[n] == "links" && p[n] == "globals" && GlobalMapPath(root, g)[n] == "globals";
    assert "links"[0] == 'l' && "globals"[0] == 'g';
    assert p[n + 1] == name && p'[n + 1] == name' && GlobalMapPath(root, g)[n + 1] == GlobalWireName(g);
    assert name[0] == WireName(m)[0] && name'[0] == WireName(m')[0];
    if p == p' {
      assert m == m';
      assert name[|WireName(m)| + 1..] == link && name'[|WireName(m)| + 1..] == link';
    }
  }
}
