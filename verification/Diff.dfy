/**
 ComputeDiff, HasChanges and ConfigDiff.Clone of internal/engine/diff.go.

 Everything the diff looks at is gathered in one value, Observed(c).  The loops of
 ComputeDiff are proved to report a change exactly when the two observations differ, so
 "no changes" is the kernel of a function, and an equivalence.
 */
module Diff {
  import opened Wrappers
  import opened ConfigModel
  import opened InterfaceDiff
  import opened SectionEquality

  datatype Routing = Routing(autonomousSystem: nat, routerID: string)

  /** The sections compared with reflect.DeepEqual. */
  datatype Sections = Sections(
    bfd: GoValue, evpn: GoValue, mpls: GoValue, vrrp: GoValue, routingInstances: GoValue, policy: GoValue,
    chassis: Option<Chassis>, classOfService: GoValue, system: GoValue, security: Option<Security>)

  datatype Observation = Observation(
    interfaces: map<string, View>, bgp: Option<BgpConfig>, ospf: Option<OspfConfig>, ospf3: Option<OspfConfig>,
    routing: Option<Routing>, staticRoutes: seq<StaticRoute>, sections: Sections)

  /** One protocol pointer; a missing Protocols struct reads as nil everywhere. */
  function ProtocolsOf(c: RouterConfig): Protocols {
    if c.protocols.None? then Protocols(Null, None, Null, None, None, Null, Null) else c.protocols.value
  }

  function StaticRoutesOf(c: RouterConfig): seq<StaticRoute> {
    if c.routing.None? then [] else c.routing.value.staticRoutes
  }

  function RoutingOf(r: Option<RoutingConfig>): Option<Routing> {
    if r.None? then None else Some(Routing(r.value.autonomousSystem, r.value.routerID))
  }

  function SectionsOf(c: RouterConfig): Sections {
    var p := ProtocolsOf(c);
    Sections(p.bfd, p.evpn, p.mpls, p.vrrp, c.routingInstances, c.policy, c.chassis, c.classOfService, c.system,
             c.security)
  }

  function Observed(c: RouterConfig): Observation {
    var p := ProtocolsOf(c);
    Observation(Views(c.interfaces), p.bgp, p.ospf, p.ospf3, RoutingOf(c.routing), StaticRoutesOf(c), SectionsOf(c))
  }

  // ---- ConfigDiff -----------------------------------------------------------

  /** The XxxChanged flag with its OldXxx and NewXxx fields, which are set only with the flag. */
  datatype Change<T> = Same | Changed(was: T, now: T)

  datatype ProtocolDiff = ProtocolDiff(
    bfd: Change<GoValue>, bgp: Change<Option<BgpConfig>>, evpn: Change<GoValue>, ospf: Change<Option<OspfConfig>>,
    ospf3: Change<Option<OspfConfig>>, mpls: Change<GoValue>, vrrp: Change<GoValue>)

  datatype ConfigDiff = ConfigDiff(
    interfaces: IfaceDiff, protocols: ProtocolDiff,
    staticRoutes: Change<seq<StaticRoute>>, routing: Change<Option<RoutingConfig>>, routingInstances: Change<GoValue>,
    policy: Change<GoValue>, chassis: Change<Option<Chassis>>, classOfService: Change<GoValue>,
    system: Change<GoValue>, security: Change<Option<Security>>)

  predicate ProtocolChanges(d: ProtocolDiff) {
    d.bfd.Changed? || d.bgp.Changed? || d.evpn.Changed? || d.ospf.Changed? || d.ospf3.Changed? || d.mpls.Changed?
        || d.vrrp.Changed?
  }

  predicate HasChanges(d: ConfigDiff) {
    || d.interfaces.added != map[] || d.interfaces.removed != [] || d.interfaces.changed != map[]
    || ProtocolChanges(d.protocols) || d.staticRoutes.Changed? || d.routing.Changed? || d.routingInstances.Changed?
    || d.policy.Changed? || d.chassis.Changed? || d.classOfService.Changed? || d.system.Changed? || d.security.Changed?
  }

  predicate IsChangeOf<T(==)>(a: T, b: T, c: Change<T>) {
    c == if a == b then Same else Changed(a, b)
  }

  ghost predicate IsProtocolDiff(a: Protocols, b: Protocols, d: ProtocolDiff) {
    && IsChangeOf(a.bfd, b.bfd, d.bfd) && IsChangeOf(a.bgp, b.bgp, d.bgp) && IsChangeOf(a.evpn, b.evpn, d.evpn)
    && IsChangeOf(a.ospf, b.ospf, d.ospf) && IsChangeOf(a.ospf3, b.ospf3, d.ospf3)
    && IsChangeOf(a.mpls, b.mpls, d.mpls) && IsChangeOf(a.vrrp, b.vrrp, d.vrrp)
  }

  /** d is what ComputeDiff may return for a and b, up to the order in which addresses are listed. */
  ghost predicate IsDiff(a: RouterConfig, b: RouterConfig, d: ConfigDiff) {
    && IsIfaceDiff(a.interfaces, b.interfaces, d.interfaces)
    && IsProtocolDiff(ProtocolsOf(a), ProtocolsOf(b), d.protocols)
    && IsChangeOf(StaticRoutesOf(a), StaticRoutesOf(b), d.staticRoutes)
    && d.routing == (if RoutingOf(a.routing) == RoutingOf(b.routing) then Same else Changed(a.routing, b.routing))
    && IsChangeOf(a.routingInstances, b.routingInstances, d.routingInstances)
    && IsChangeOf(a.policy, b.policy, d.policy) && IsChangeOf(a.chassis, b.chassis, d.chassis)
    && IsChangeOf(a.classOfService, b.classOfService, d.classOfService)
    && IsChangeOf(a.system, b.system, d.system) && IsChangeOf(a.security, b.security, d.security)
  }

  function ChangeOf<T(==)>(eq: bool, a: T, b: T): Change<T> {
    if eq then Same else Changed(a, b)
  }

  /** computeProtocolDiff. */
  method ComputeProtocolDiff(p: Protocols, q: Protocols) returns (d: ProtocolDiff)
    ensures IsProtocolDiff(p, q, d)
    ensures ProtocolChanges(d) <==> p != q
  {
    var bgpSame := BgpEqual(p.bgp, q.bgp);
    var ospfSame := OspfEqual(p.ospf, q.ospf);
    var ospf3Same := OspfEqual(p.ospf3, q.ospf3);
    d := ProtocolDiff(
      ChangeOf(p.bfd == q.bfd, p.bfd, q.bfd), ChangeOf(bgpSame, p.bgp, q.bgp),
      ChangeOf(p.evpn == q.evpn, p.evpn, q.evpn),
      ChangeOf(ospfSame, p.ospf, q.ospf), ChangeOf(ospf3Same, p.ospf3, q.ospf3),
      ChangeOf(p.mpls == q.mpls, p.mpls, q.mpls), ChangeOf(p.vrrp == q.vrrp, p.vrrp, q.vrrp));
  }

  /** ComputeDiff. */
  method ComputeDiff(oldCfg: Option<RouterConfig>, newCfg: Option<RouterConfig>) returns (d: ConfigDiff)
    ensures IsDiff(OrEmpty(oldCfg), OrEmpty(newCfg), d)
    ensures HasChanges(d) <==> Observed(OrEmpty(oldCfg)) != Observed(OrEmpty(newCfg))
  {
    var a, b := OrEmpty(oldCfg), OrEmpty(newCfg);
    var interfaces := ComputeInterfaceDiff(a.interfaces, b.interfaces);
    var protocols := ComputeProtocolDiff(ProtocolsOf(a), ProtocolsOf(b));
    var routesSame := StaticRoutesEqual(StaticRoutesOf(a), StaticRoutesOf(b));
    d := ConfigDiff(
      interfaces, protocols,
      ChangeOf(routesSame, StaticRoutesOf(a), StaticRoutesOf(b)),
      ChangeOf(RoutingEqual(a.routing, b.routing), a.routing, b.routing),
      ChangeOf(a.routingInstances == b.routingInstances, a.routingInstances, b.routingInstances),
      ChangeOf(a.policy == b.policy, a.policy, b.policy), ChangeOf(a.chassis == b.chassis, a.chassis, b.chassis),
      ChangeOf(a.classOfService == b.classOfService, a.classOfService, b.classOfService),
      ChangeOf(a.system == b.system, a.system, b.system), ChangeOf(a.security == b.security, a.security, b.security));
    HasChangesIffObservedDiffer(a, b, d);
  }

  /** routingEqual: static routes are compared on their own. */
  predicate RoutingEqual(a: Option<RoutingConfig>, b: Option<RoutingConfig>) {
    if a.None? && b.None? then true
    else if a.None? || b.None? then false
    else a.value.autonomousSystem == b.value.autonomousSystem && a.value.routerID == b.value.routerID
  }

  // ---- What the diff tells apart ------------------------------------------------

  /** A missing Protocols struct counts as one with nothing in it. */
  ghost predicate SameProtocols(a: Option<Protocols>, b: Option<Protocols>) {
    var nothing := Protocols(Null, None, Null, None, None, Null, Null);
    (if a.Some? then a.value else nothing) == (if b.Some? then b.value else nothing)
  }

  ghost predicate SameInterfaces(a: Interfaces, b: Interfaces) {
    a.Keys == b.Keys && forall name :: name in a && name in b ==> SameInterface(a[name], b[name])
  }

  lemma SameViewsIff(a: Interfaces, b: Interfaces)
    ensures Views(a) == Views(b) <==> SameInterfaces(a, b)
  {
    assert Views(a).Keys == a.Keys && Views(b).Keys == b.Keys;
    forall name | name in a && name in b ensures Views(a)[name] == Views(b)[name] <==> SameInterface(a[name], b[name]) {
      SameViewIff(a[name], b[name]);
    }
  }

  /**
   Two configurations are the same to the diff exactly if they agree on every field, interfaces being
   compared by description and set of addresses, and a missing Protocols struct being an empty one.
   */
  lemma SameObservationIff(a: RouterConfig, b: RouterConfig)
    ensures Observed(a) == Observed(b) <==>
            && SameInterfaces(a.interfaces, b.interfaces) && SameProtocols(a.protocols, b.protocols)
            && a.routing == b.routing && a.routingInstances == b.routingInstances && a.policy == b.policy
            && a.chassis == b.chassis && a.classOfService == b.classOfService && a.system == b.system
            && a.security == b.security
  {
    SameViewsIff(a.interfaces, b.interfaces);
  }

  // ---- "No changes" is an equivalence ---------------------------------------

  lemma HasChangesIffObservedDiffer(a: RouterConfig, b: RouterConfig, d: ConfigDiff)
    requires IsDiff(a, b, d)
    ensures HasChanges(d) <==> Observed(a) != Observed(b)
  {
    EmptyDiffIffSame(a.interfaces, b.interfaces, d.interfaces);
  }

  /** ComputeDiff finds no changes between a and b, a nil configuration counting as the empty one. */
  ghost predicate NoChanges(a: Option<RouterConfig>, b: Option<RouterConfig>) {
    exists d :: IsDiff(OrEmpty(a), OrEmpty(b), d) && !HasChanges(d)
  }

  lemma NoChangesIsKernel(a: Option<RouterConfig>, b: Option<RouterConfig>)
    ensures NoChanges(a, b) <==> Observed(OrEmpty(a)) == Observed(OrEmpty(b))
  {
    var x, y := OrEmpty(a), OrEmpty(b);
    if NoChanges(a, b) {
      var d :| IsDiff(x, y, d) && !HasChanges(d);
      HasChangesIffObservedDiffer(x, y, d);
    }
    if Observed(x) == Observed(y) {
      var nothing := IfaceDiff(map[], [], map[]);
      SameViewsEmptyDiff(x.interfaces, y.interfaces);
      assert ProtocolsOf(x) == ProtocolsOf(y) by {
        assert SectionsOf(x) == SectionsOf(y);
      }
      assert IsDiff(x, y, ConfigDiff(nothing, ProtocolDiff(Same, Same, Same, Same, Same, Same, Same), Same, Same, Same,
                                     Same, Same, Same, Same, Same));
    }
  }

  lemma SameViewsEmptyDiff(was: Interfaces, now: Interfaces)
    requires Views(was) == Views(now)
    ensures IsIfaceDiff(was, now, IfaceDiff(map[], [], map[]))
  {
    assert was.Keys == Views(was).Keys == Views(now).Keys == now.Keys;
    forall name | name in was ensures ViewOf(was[name]) == ViewOf(now[name]) {
      assert Views(was)[name] == Views(now)[name];
    }
  }

  /** Reflexive, symmetric and transitive over all configurations, nil included. */
  lemma NoChangesIsEquivalence(a: Option<RouterConfig>, b: Option<RouterConfig>, c: Option<RouterConfig>)
    ensures NoChanges(a, a)
    ensures NoChanges(a, b) ==> NoChanges(b, a)
    ensures NoChanges(a, b) && NoChanges(b, c) ==> NoChanges(a, c)
    ensures NoChanges(None, Some(EMPTY_CONFIG))
  {
    NoChangesIsKernel(a, a);
    NoChangesIsKernel(a, b);
    NoChangesIsKernel(b, a);
    NoChangesIsKernel(b, c);
    NoChangesIsKernel(a, c);
    NoChangesIsKernel(None, Some(EMPTY_CONFIG));
  }
}
