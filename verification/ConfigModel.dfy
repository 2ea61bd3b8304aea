/**
 The configuration tree of internal/model: what a RouterConfig holds, what Clone
 makes of it and what its JSON rendering (the input of the snapshot hash) keeps.

 Go tells a nil map or slice from an empty one, reflect.DeepEqual sees the difference,
 Clone forgets it for []string and JSON forgets it for every collection.  Sections that
 are compared with reflect.DeepEqual therefore keep that difference.  Where no reader
 can tell (interfaces, BGP, OSPF, static routes) a plain map or sequence is used.
 */
module ConfigModel {
  import opened Wrappers

  /** A Go value of a section that only reflect.DeepEqual, Clone and json.Marshal look into. */
  datatype GoValue =
    | Null                                  // nil pointer, nil map or nil slice
    | Scalar(text: string)                  // string, number or boolean
    | Strings(items: seq<string>)           // non-nil []string
    | Pointers(elems: seq<GoValue>)         // non-nil slice of pointers
    | Table(entries: map<string, GoValue>)  // non-nil map
    | Record(fields: seq<GoValue>)          // struct

  datatype AddressFamily = AddressFamily(addresses: seq<string>)
  datatype Unit = Unit(family: map<string, Option<AddressFamily>>)
  datatype InterfaceConfig = InterfaceConfig(description: string, units: map<int, Option<Unit>>)

  datatype BgpNeighbor = BgpNeighbor(peerAS: nat, description: string, localAddress: string, bfd: bool,
                                     bfdProfile: string)
  datatype BgpGroup = BgpGroup(groupType: string, neighbors: map<string, BgpNeighbor>, importPolicy: string,
                               exportPolicy: string)
  datatype BgpConfig = BgpConfig(groups: map<string, BgpGroup>)

  datatype OspfInterface = OspfInterface(passive: bool, metric: int, priority: Option<int>, bfd: bool,
                                         bfdProfile: string)
  datatype OspfArea = OspfArea(interfaces: map<string, OspfInterface>)
  datatype OspfConfig = OspfConfig(routerID: string, areas: map<string, OspfArea>)

  datatype StaticRoute = StaticRoute(prefix: string, nextHop: string, distance: int, bfd: bool, bfdProfile: string,
                                     bfdSource: string, bfdMultihop: bool)
  datatype RoutingConfig = RoutingConfig(autonomousSystem: nat, routerID: string, staticRoutes: seq<StaticRoute>)

  datatype EtcdSync = EtcdSync(endpoints: Option<seq<string>>)
  datatype ClusterSync = ClusterSync(etcd: Option<EtcdSync>)
  datatype Cluster = Cluster(enabled: bool, nodes: GoValue, sync: Option<ClusterSync>)
  datatype Chassis = Chassis(cluster: Option<Cluster>)

  /** enabledSet is tagged json:"-": the only field the snapshot hash never sees. */
  datatype NetconfSsh = NetconfSsh(enabled: bool, enabledSet: bool, listen: GoValue)
  datatype NetconfSecurity = NetconfSecurity(ssh: Option<NetconfSsh>)
  datatype Security = Security(netconf: Option<NetconfSecurity>, users: GoValue, rateLimit: GoValue)

  datatype Protocols = Protocols(
    bfd: GoValue, bgp: Option<BgpConfig>, evpn: GoValue, ospf: Option<OspfConfig>,
    ospf3: Option<OspfConfig>, mpls: GoValue, vrrp: GoValue)

  datatype RouterConfig = RouterConfig(
    system: GoValue, chassis: Option<Chassis>, interfaces: map<string, Option<InterfaceConfig>>,
    protocols: Option<Protocols>, routing: Option<RoutingConfig>, routingInstances: GoValue,
    policy: GoValue, classOfService: GoValue, security: Option<Security>)

  /** NewRouterConfig: the empty configuration that a nil one stands for. */
  const EMPTY_CONFIG := RouterConfig(Null, None, map[], None, None, Null, Null, Null, None)

  // ---- Clone ----------------------------------------------------------------

  /** A deep copy, except that append([]string(nil), s...) turns an empty []string into nil. */
  function CloneValue(v: GoValue): GoValue
    decreases v
  {
    match v
    case Strings(items) => if items == [] then Null else v
    case Pointers(elems) => Pointers(seq(|elems|, i requires 0 <= i < |elems| => CloneValue(elems[i])))
    case Table(entries) => Table(map k | k in entries :: CloneValue(entries[k]))
    case Record(fields) => Record(seq(|fields|, i requires 0 <= i < |fields| => CloneValue(fields[i])))
    case _ => v
  }

  function CloneEndpoints(s: Option<seq<string>>): Option<seq<string>> {
    if s == Some([]) then None else s
  }

  function CloneSync(s: ClusterSync): ClusterSync {
    match s.etcd
    case None => s
    case Some(e) => ClusterSync(Some(EtcdSync(CloneEndpoints(e.endpoints))))
  }

  function CloneChassis(c: Chassis): Chassis {
    match c.cluster
    case None => c
    case Some(k) =>
      Chassis(Some(Cluster(k.enabled, CloneValue(k.nodes), if k.sync.None? then None
                           else Some(CloneSync(k.sync.value)))))
  }

  function CloneSsh(s: NetconfSsh): NetconfSsh {
    s.(listen := CloneValue(s.listen))
  }

  function CloneSecurity(s: Security): Security {
    Security(
      match s.netconf {
        case None => None
        case Some(n) => Some(NetconfSecurity(if n.ssh.None? then None else Some(CloneSsh(n.ssh.value))))
      },
      CloneValue(s.users), CloneValue(s.rateLimit))
  }

  function CloneProtocols(p: Protocols): Protocols {
    p.(bfd := CloneValue(p.bfd), evpn := CloneValue(p.evpn), mpls := CloneValue(p.mpls), vrrp := CloneValue(p.vrrp))
  }

  function Clone(c: RouterConfig): RouterConfig {
    RouterConfig(
      CloneValue(c.system),
      if c.chassis.None? then None else Some(CloneChassis(c.chassis.value)),
      c.interfaces,
      if c.protocols.None? then None else Some(CloneProtocols(c.protocols.value)),
      c.routing,
      CloneValue(c.routingInstances), CloneValue(c.policy), CloneValue(c.classOfService),
      if c.security.None? then None else Some(CloneSecurity(c.security.value)))
  }

  /** The configuration a possibly nil pointer stands for. */
  function OrEmpty(c: Option<RouterConfig>): RouterConfig {
    match c
    case None => EMPTY_CONFIG
    case Some(cfg) => cfg
  }

  // ---- JSON, and the hash ---------------------------------------------------

  /** What json.Marshal keeps: omitempty drops every empty collection, nil or not. */
  function JsonValue(v: GoValue): GoValue
    decreases v
  {
    match v
    case Strings(items) => if items == [] then Null else v
    case Pointers(elems) =>
      if elems == [] then Null else Pointers(seq(|elems|, i requires 0 <= i < |elems| => JsonValue(elems[i])))
    case Table(entries) =>
      if entries == map[] then Null else Table(map k | k in entries :: JsonValue(entries[k]))
    case Record(fields) => Record(seq(|fields|, i requires 0 <= i < |fields| => JsonValue(fields[i])))
    case _ => v
  }

  function JsonChassis(c: Chassis): Chassis {
    match c.cluster
    case None => c
    case Some(k) =>
      Chassis(Some(Cluster(k.enabled, JsonValue(k.nodes), if k.sync.None? then None
                           else Some(CloneSync(k.sync.value)))))
  }

  function JsonSecurity(s: Security): Security {
    Security(
      match s.netconf {
        case None => None
        case Some(n) =>
          Some(NetconfSecurity(
                 if n.ssh.None? then None
                 else Some(NetconfSsh(n.ssh.value.enabled, false, JsonValue(n.ssh.value.listen)))))
      },
      JsonValue(s.users), JsonValue(s.rateLimit))
  }

  function JsonProtocols(p: Protocols): Protocols {
    p.(bfd := JsonValue(p.bfd), evpn := JsonValue(p.evpn), mpls := JsonValue(p.mpls), vrrp := JsonValue(p.vrrp))
  }

  /** The snapshot hash: SHA-256 of the JSON text, here the JSON content itself. */
  function HashOf(c: RouterConfig): RouterConfig {
    RouterConfig(
      JsonValue(c.system),
      if c.chassis.None? then None else Some(JsonChassis(c.chassis.value)),
      c.interfaces,
      if c.protocols.None? then None else Some(JsonProtocols(c.protocols.value)),
      c.routing,
      JsonValue(c.routingInstances), JsonValue(c.policy), JsonValue(c.classOfService),
      if c.security.None? then None else Some(JsonSecurity(c.security.value)))
  }

  // ---- Facts about Clone and the hash ---------------------------------------

  lemma {:induction false} CloneValueTwice(v: GoValue)
    ensures CloneValue(CloneValue(v)) == CloneValue(v)
    decreases v
  {
    match v
    case Pointers(elems) =>
      forall i | 0 <= i < |elems| { CloneValueTwice(elems[i]); }
    case Table(entries) =>
      forall k | k in entries { CloneValueTwice(entries[k]); }
    case Record(fields) =>
      forall i | 0 <= i < |fields| { CloneValueTwice(fields[i]); }
    case _ =>
  }

  lemma {:induction false} CloneValueKeepsJson(v: GoValue)
    ensures JsonValue(CloneValue(v)) == JsonValue(v)
    decreases v
  {
    match v
    case Pointers(elems) =>
      forall i | 0 <= i < |elems| { CloneValueKeepsJson(elems[i]); }
    case Table(entries) =>
      forall k | k in entries { CloneValueKeepsJson(entries[k]); }
      assert CloneValue(v).entries.Keys == entries.Keys;
      assert entries != map[] ==> exists k :: k in entries && k in CloneValue(v).entries;
    case Record(fields) =>
      forall i | 0 <= i < |fields| { CloneValueKeepsJson(fields[i]); }
    case _ =>
  }

  lemma CloneChassisFacts(c: Chassis)
    ensures CloneChassis(CloneChassis(c)) == CloneChassis(c)
    ensures JsonChassis(CloneChassis(c)) == JsonChassis(c)
  {
    if c.cluster.Some? {
      CloneValueTwice(c.cluster.value.nodes);
      CloneValueKeepsJson(c.cluster.value.nodes);
    }
  }

  lemma CloneProtocolsFacts(p: Protocols)
    ensures CloneProtocols(CloneProtocols(p)) == CloneProtocols(p)
    ensures JsonProtocols(CloneProtocols(p)) == JsonProtocols(p)
  {
    forall v | v in {p.bfd, p.evpn, p.mpls, p.vrrp}
      ensures CloneValue(CloneValue(v)) == CloneValue(v) && JsonValue(CloneValue(v)) == JsonValue(v)
    {
      CloneValueTwice(v);
      CloneValueKeepsJson(v);
    }
  }

  lemma CloneSecurityFacts(s: Security)
    ensures CloneSecurity(CloneSecurity(s)) == CloneSecurity(s)
    ensures JsonSecurity(CloneSecurity(s)) == JsonSecurity(s)
  {
    CloneValueTwice(s.users);
    CloneValueKeepsJson(s.users);
    CloneValueTwice(s.rateLimit);
    CloneValueKeepsJson(s.rateLimit);
    if s.netconf.Some? && s.netconf.value.ssh.Some? {
      CloneValueTwice(s.netconf.value.ssh.value.listen);
      CloneValueKeepsJson(s.netconf.value.ssh.value.listen);
    }
  }

  /** Cloning twice is cloning once. */
  lemma CloneTwice(c: RouterConfig)
    ensures Clone(Clone(c)) == Clone(c)
  {
    CloneValueTwice(c.system);
    CloneValueTwice(c.routingInstances);
    CloneValueTwice(c.policy);
    CloneValueTwice(c.classOfService);
    if c.chassis.Some? { CloneChassisFacts(c.chassis.value); }
    if c.protocols.Some? { CloneProtocolsFacts(c.protocols.value); }
    if c.security.Some? { CloneSecurityFacts(c.security.value); }
  }

  /** A snapshot, which holds a clone, hashes like the configuration it was made of. */
  lemma CloneKeepsHash(c: RouterConfig)
    ensures HashOf(Clone(c)) == HashOf(c)
  {
    CloneValueKeepsJson(c.system);
    CloneValueKeepsJson(c.routingInstances);
    CloneValueKeepsJson(c.policy);
    CloneValueKeepsJson(c.classOfService);
    if c.chassis.Some? { CloneChassisFacts(c.chassis.value); }
    if c.protocols.Some? { CloneProtocolsFacts(c.protocols.value); }
    if c.security.Some? { CloneSecurityFacts(c.security.value); }
  }
}
