/**
 What the snapshot hash tells apart (internal/model/config.go): two configurations have equal hashes exactly if
 they have the same structure, where a collection that is empty counts as one that is missing, and the
 field that JSON skips does not count.
 */
module HashContent {
  import opened Wrappers
  import opened ConfigModel
  import opened EmptyLists

  // ---- Values ---------------------------------------------------------------

  /** A nil pointer, or a collection without elements. */
  predicate NoElements(v: GoValue) {
    v == Null || v == Strings([]) || v == Pointers([]) || v == Table(map[])
  }

  /** The same tree, except that a collection may be missing in one and empty in the other. */
  predicate SameUpToEmptiness(a: GoValue, b: GoValue)
    decreases a
  {
    if NoElements(a) || NoElements(b) then NoElements(a) && NoElements(b)
    else match a
      case Pointers(elems) =>
        b.Pointers? && |b.elems| == |elems| && forall i :: 0 <= i < |elems| ==> SameUpToEmptiness(elems[i], b.elems[i])
      case Table(entries) =>
        && b.Table? && b.entries.Keys == entries.Keys
        && forall k :: k in entries ==> k in b.entries && SameUpToEmptiness(entries[k], b.entries[k])
      case Record(fields) =>
        b.Record? && |b.fields| == |fields| && forall i :: 0 <= i < |fields| ==>
                                                 SameUpToEmptiness(fields[i], b.fields[i])
      case _ => a == b
  }

  lemma JsonSeqsEqual(a: seq<GoValue>, b: seq<GoValue>, x: seq<GoValue>, y: seq<GoValue>)
    requires |x| == |a| == |b| == |y|
    requires forall i :: 0 <= i < |a| ==> x[i] == JsonValue(a[i]) && y[i] == JsonValue(b[i])
    ensures x == y <==> forall i :: 0 <= i < |a| ==> JsonValue(a[i]) == JsonValue(b[i])
  {
    if forall i :: 0 <= i < |a| ==> JsonValue(a[i]) == JsonValue(b[i]) {
      assert forall i :: 0 <= i < |x| ==> x[i] == y[i];
    }
  }

  lemma JsonTablesEqual(a: GoValue, b: GoValue)
    requires a.Table? && b.Table? && a.entries.Keys == b.entries.Keys && a.entries != map[] && b.entries != map[]
    ensures JsonValue(a) == JsonValue(b) <==>
            forall k :: k in a.entries ==> JsonValue(a.entries[k]) == JsonValue(b.entries[k])
  {
    var x, y := JsonValue(a).entries, JsonValue(b).entries;
    assert x.Keys == y.Keys;
    assert forall k :: k in a.entries ==> x[k] == JsonValue(a.entries[k]) && y[k] == JsonValue(b.entries[k]);
    assert x == y <==> forall k :: k in a.entries ==> x[k] == y[k];
  }

  lemma JsonKeepsShape(v: GoValue)
    requires !NoElements(v)
    ensures v.Pointers? <==> JsonValue(v).Pointers?
    ensures v.Table? <==> JsonValue(v).Table?
    ensures v.Record? <==> JsonValue(v).Record?
    ensures v.Pointers? ==> |JsonValue(v).elems| == |v.elems|
    ensures v.Table? ==> JsonValue(v).entries.Keys == v.entries.Keys
    ensures v.Record? ==> |JsonValue(v).fields| == |v.fields|
  {
  }

  /** JSON vanishes exactly for a value without elements. */
  lemma JsonNullIff(v: GoValue)
    ensures JsonValue(v) == Null <==> NoElements(v)
  {
  }

  /** Equal JSON: the same structure up to missing against empty collections. */
  lemma {:induction false} SameJsonIff(a: GoValue, b: GoValue)
    ensures JsonValue(a) == JsonValue(b) <==> SameUpToEmptiness(a, b)
    decreases a
  {
    JsonNullIff(a);
    JsonNullIff(b);
    if !NoElements(a) && !NoElements(b) {
      JsonKeepsShape(a);
      JsonKeepsShape(b);
      match a
      case Pointers(elems) =>
        if b.Pointers? && |b.elems| == |elems| {
          forall i | 0 <= i < |elems| { SameJsonIff(elems[i], b.elems[i]); }
          JsonSeqsEqual(elems, b.elems, JsonValue(a).elems, JsonValue(b).elems);
        }
      case Table(entries) =>
        if b.Table? && b.entries.Keys == entries.Keys {
          forall k | k in entries { SameJsonIff(entries[k], b.entries[k]); }
          JsonTablesEqual(a, b);
        }
      case Record(fields) =>
        if b.Record? && |b.fields| == |fields| {
          forall i | 0 <= i < |fields| { SameJsonIff(fields[i], b.fields[i]); }
          JsonSeqsEqual(fields, b.fields, JsonValue(a).fields, JsonValue(b).fields);
        }
      case _ =>
    }
  }

  // ---- Configurations ---------------------------------------------------------

  predicate SameProtocolContent(a: Option<Protocols>, b: Option<Protocols>) {
    && a.Some? == b.Some?
    && (a.Some? ==>
        var p, q := a.value, b.value;
        && p.bgp == q.bgp && p.ospf == q.ospf && p.ospf3 == q.ospf3 && SameUpToEmptiness(p.bfd, q.bfd)
        && SameUpToEmptiness(p.evpn, q.evpn) && SameUpToEmptiness(p.mpls, q.mpls) && SameUpToEmptiness(p.vrrp, q.vrrp))
  }

  predicate SameChassisContent(a: Option<Chassis>, b: Option<Chassis>) {
    && a.Some? == b.Some?
    && (a.Some? ==>
        && a.value.cluster.Some? == b.value.cluster.Some?
        && (a.value.cluster.Some? ==>
            var k, l := a.value.cluster.value, b.value.cluster.value;
            k.enabled == l.enabled && SameUpToEmptiness(k.nodes, l.nodes) && SameSync(k.sync, l.sync)))
  }

  /** enabledSet does not count. */
  predicate SameNetconfContent(a: Option<NetconfSecurity>, b: Option<NetconfSecurity>) {
    && a.Some? == b.Some?
    && (a.Some? ==>
        && a.value.ssh.Some? == b.value.ssh.Some?
        && (a.value.ssh.Some? ==>
            var s, t := a.value.ssh.value, b.value.ssh.value;
            s.enabled == t.enabled && SameUpToEmptiness(s.listen, t.listen)))
  }

  predicate SameSecurityContent(a: Option<Security>, b: Option<Security>) {
    && a.Some? == b.Some?
    && (a.Some? ==>
        && SameNetconfContent(a.value.netconf, b.value.netconf)
        && SameUpToEmptiness(a.value.users, b.value.users) && SameUpToEmptiness(a.value.rateLimit, b.value.rateLimit))
  }

  predicate SameContent(a: RouterConfig, b: RouterConfig) {
    && a.interfaces == b.interfaces && a.routing == b.routing
    && SameUpToEmptiness(a.system, b.system) && SameUpToEmptiness(a.routingInstances, b.routingInstances)
    && SameUpToEmptiness(a.policy, b.policy) && SameUpToEmptiness(a.classOfService, b.classOfService)
    && SameProtocolContent(a.protocols, b.protocols) && SameChassisContent(a.chassis, b.chassis)
    && SameSecurityContent(a.security, b.security)
  }

  lemma SameProtocolContentIff(a: Option<Protocols>, b: Option<Protocols>)
    ensures SameProtocolContent(a, b) <==>
            a.Some? == b.Some? && (a.Some? ==> JsonProtocols(a.value) == JsonProtocols(b.value))
  {
    if a.Some? && b.Some? {
      SameJsonIff(a.value.bfd, b.value.bfd);
      SameJsonIff(a.value.evpn, b.value.evpn);
      SameJsonIff(a.value.mpls, b.value.mpls);
      SameJsonIff(a.value.vrrp, b.value.vrrp);
    }
  }

  lemma SameChassisContentIff(a: Option<Chassis>, b: Option<Chassis>)
    ensures SameChassisContent(a, b) <==>
            a.Some? == b.Some? && (a.Some? ==> JsonChassis(a.value) == JsonChassis(b.value))
  {
    if a.Some? && b.Some? && a.value.cluster.Some? && b.value.cluster.Some? {
      SameJsonIff(a.value.cluster.value.nodes, b.value.cluster.value.nodes);
    }
  }

  lemma SameNetconfContentIff(a: Security, b: Security)
    ensures SameNetconfContent(a.netconf, b.netconf) <==> JsonSecurity(a).netconf == JsonSecurity(b).netconf
  {
    if a.netconf.Some? && b.netconf.Some? && a.netconf.value.ssh.Some? && b.netconf.value.ssh.Some? {
      SameJsonIff(a.netconf.value.ssh.value.listen, b.netconf.value.ssh.value.listen);
    }
  }

  lemma SameSecurityContentIff(a: Option<Security>, b: Option<Security>)
    ensures SameSecurityContent(a, b) <==>
            a.Some? == b.Some? && (a.Some? ==> JsonSecurity(a.value) == JsonSecurity(b.value))
  {
    if a.Some? && b.Some? {
      SameNetconfContentIff(a.value, b.value);
      SameJsonIff(a.value.users, b.value.users);
      SameJsonIff(a.value.rateLimit, b.value.rateLimit);
    }
  }

  /** Exactly which configurations have the same snapshot hash. */
  lemma SameHashIff(a: RouterConfig, b: RouterConfig)
    ensures HashOf(a) == HashOf(b) <==> SameContent(a, b)
  {
    SameJsonIff(a.system, b.system);
    SameJsonIff(a.routingInstances, b.routingInstances);
    SameJsonIff(a.policy, b.policy);
    SameJsonIff(a.classOfService, b.classOfService);
    SameProtocolContentIff(a.protocols, b.protocols);
    SameChassisContentIff(a.chassis, b.chassis);
    SameSecurityContentIff(a.security, b.security);
  }
}
