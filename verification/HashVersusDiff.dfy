/**
 Three notions of "the same configuration" meet in the daemon: what the diff observes,
 what Clone keeps, and what the snapshot hash sees.  This module says exactly how they
 relate, and where they part.
 */
module HashVersusDiff {
  import opened Wrappers
  import opened ConfigModel
  import opened Diff
  import opened EmptyLists

  /** What the engine observes of a configuration: it diffs clones only. */
  function Seen(c: RouterConfig): Observation {
    Observed(Clone(c))
  }

  lemma SeenOfClone(c: RouterConfig)
    ensures Seen(Clone(c)) == Seen(c)
  {
    CloneTwice(c);
  }

  // ---- Clone against the diff -----------------------------------------------

  lemma SeenIsObservedUpToSections(c: RouterConfig)
    ensures Seen(c) == Observed(c).(sections := CloneSections(SectionsOf(c)))
  {
  }

  /** Cloning both sides of a diff never adds a change ... */
  lemma CloneAddsNoChange(a: RouterConfig, b: RouterConfig)
    ensures Observed(a) == Observed(b) ==> Seen(a) == Seen(b)
  {
    SeenIsObservedUpToSections(a);
    SeenIsObservedUpToSections(b);
  }

  /** Two configurations that differ, and nowhere but in string lists that are nil in one and empty in the other. */
  predicate DifferInEmptyListsOnly(a: RouterConfig, b: RouterConfig) {
    && Observed(a).(sections := SectionsOf(b)) == Observed(b)
    && SectionsOf(a) != SectionsOf(b) && SameSections(SectionsOf(a), SectionsOf(b))
  }

  /** ... and it keeps every change exactly unless the two differ in nil against empty string lists only. */
  lemma CloneKeepsChangesIff(a: RouterConfig, b: RouterConfig)
    ensures (Seen(a) == Seen(b) <==> Observed(a) == Observed(b)) <==> !DifferInEmptyListsOnly(a, b)
  {
    SeenIsObservedUpToSections(a);
    SeenIsObservedUpToSections(b);
    SameSectionsIff(SectionsOf(a), SectionsOf(b));
  }

  /** If one of them is a clone, they differ in that way exactly if the other has an empty list somewhere. */
  lemma DifferFromCloneIff(a: RouterConfig, b: RouterConfig)
    requires Clone(a) == a
    ensures DifferInEmptyListsOnly(a, b) <==>
            && Observed(a).(sections := SectionsOf(b)) == Observed(b)
            && SameSections(SectionsOf(a), SectionsOf(b)) && SectionsHaveEmptyList(SectionsOf(b))
  {
    CloneSectionsOf(a);
    OwnSectionsIff(SectionsOf(b));
    SameSectionsIff(SectionsOf(a), SectionsOf(b));
  }

  lemma CloneSectionsOf(a: RouterConfig)
    ensures SectionsOf(Clone(a)) == CloneSections(SectionsOf(a))
  {
  }

  /** Diffs of clones are stable: recomputing one on clones of its own trees reports the same. */
  lemma DiffCloneIsFaithful(a: RouterConfig, b: RouterConfig, d: ConfigDiff, e: ConfigDiff)
    requires IsDiff(Clone(a), Clone(b), d)
    requires IsDiff(Clone(Clone(a)), Clone(Clone(b)), e)
    ensures HasChanges(d) <==> HasChanges(e)
    ensures e == d.(interfaces := e.interfaces)
    ensures e.interfaces.added == d.interfaces.added && e.interfaces.removed == d.interfaces.removed
    ensures e.interfaces.changed.Keys == d.interfaces.changed.Keys
    ensures forall name :: name in d.interfaces.changed ==>
              && name in e.interfaces.changed
              && InterfaceDiff.SameChange(d.interfaces.changed[name], e.interfaces.changed[name])
  {
    CloneTwice(a);
    CloneTwice(b);
    HasChangesIffObservedDiffer(Clone(a), Clone(b), d);
    HasChangesIffObservedDiffer(Clone(a), Clone(b), e);
    InterfaceDiff.DiffDetermined(a.interfaces, b.interfaces, d.interfaces, e.interfaces);
  }

  /** A configuration with one VRF, and its import list. */
  function Vrf(imports: GoValue): RouterConfig {
    EMPTY_CONFIG.(routingInstances := Table(map["blue" := Record([Scalar("vrf"), imports])]))
  }

  /** The failing family is not empty: a VRF whose import list is empty in one tree and nil in the other. */
  lemma UnclonedDiffReportsPhantomChange()
    ensures Observed(Vrf(Strings([]))) != Observed(Vrf(Null)) && Seen(Vrf(Strings([]))) == Seen(Vrf(Null))
    ensures Clone(Vrf(Null)) == Vrf(Null)
  {
    var a, b := Record([Scalar("vrf"), Strings([])]), Record([Scalar("vrf"), Null]);
    assert a.fields[1] != b.fields[1];
    assert Vrf(Strings([])).routingInstances.entries["blue"] == a && Vrf(Null).routingInstances.entries["blue"] == b;
    assert CloneValue(a) == b && CloneValue(b) == b;
    assert CloneValue(Vrf(Strings([])).routingInstances) == CloneValue(Vrf(Null).routingInstances)
        == Vrf(Null).routingInstances;
  }

  // ---- The hash against the diff --------------------------------------------

  predicate IsEmptyCollection(v: GoValue) {
    v == Pointers([]) || v == Table(map[])
  }

  /** Wherever one tree has a collection that is present but empty, the other has it too. */
  predicate AgreeOnEmpty(a: GoValue, b: GoValue)
    decreases a
  {
    if IsEmptyCollection(a) || IsEmptyCollection(b) then a == b
    else match a
      case Pointers(elems) =>
        b.Pointers? && |b.elems| == |elems| ==> forall i :: 0 <= i < |elems| ==> AgreeOnEmpty(elems[i], b.elems[i])
      case Table(entries) =>
        b.Table? ==> forall k :: k in entries && k in b.entries ==> AgreeOnEmpty(entries[k], b.entries[k])
      case Record(fields) =>
        b.Record? && |b.fields| == |fields| ==> forall i :: 0 <= i < |fields| ==> AgreeOnEmpty(fields[i], b.fields[i])
      case _ => true
  }

  lemma {:induction false} SameJsonValue(a: GoValue, b: GoValue)
    requires JsonValue(a) == JsonValue(b)
    ensures CloneValue(a) == CloneValue(b) <==> AgreeOnEmpty(a, b)
    decreases a
  {
    if !IsEmptyCollection(a) && !IsEmptyCollection(b) {
      match a
      case Pointers(elems) => SameJsonPointers(a, b);
      case Table(entries) => SameJsonTable(a, b);
      case Record(fields) => SameJsonRecord(a, b);
      case _ =>
    }
  }

  lemma {:induction false} SameJsonPointers(a: GoValue, b: GoValue)
    requires JsonValue(a) == JsonValue(b) && a.Pointers? && a.elems != []
    ensures CloneValue(a) == CloneValue(b) <==> AgreeOnEmpty(a, b)
    decreases a, 0
  {
    assert b.Pointers? && |b.elems| == |a.elems|;
    forall i | 0 <= i < |a.elems|
      ensures CloneValue(a.elems[i]) == CloneValue(b.elems[i]) <==> AgreeOnEmpty(a.elems[i], b.elems[i])
    {
      assert JsonValue(a).elems[i] == JsonValue(b).elems[i];
      SameJsonValue(a.elems[i], b.elems[i]);
    }
    assert CloneValue(a) == CloneValue(b) <==>
           forall i :: 0 <= i < |a.elems| ==> CloneValue(a).elems[i] == CloneValue(b).elems[i];
    assert forall i :: 0 <= i < |a.elems| ==>
             CloneValue(a).elems[i] == CloneValue(a.elems[i]) && CloneValue(b).elems[i] == CloneValue(b.elems[i]);
  }

  lemma {:induction false} SameJsonRecord(a: GoValue, b: GoValue)
    requires JsonValue(a) == JsonValue(b) && a.Record?
    ensures CloneValue(a) == CloneValue(b) <==> AgreeOnEmpty(a, b)
    decreases a, 0
  {
    assert b.Record? && |b.fields| == |a.fields|;
    forall i | 0 <= i < |a.fields|
      ensures CloneValue(a.fields[i]) == CloneValue(b.fields[i]) <==> AgreeOnEmpty(a.fields[i], b.fields[i])
    {
      assert JsonValue(a).fields[i] == JsonValue(b).fields[i];
      SameJsonValue(a.fields[i], b.fields[i]);
    }
    assert CloneValue(a) == CloneValue(b) <==>
           forall i :: 0 <= i < |a.fields| ==> CloneValue(a).fields[i] == CloneValue(b).fields[i];
    assert forall i :: 0 <= i < |a.fields| ==>
             CloneValue(a).fields[i] == CloneValue(a.fields[i]) && CloneValue(b).fields[i] == CloneValue(b.fields[i]);
  }

  lemma {:induction false} SameJsonTable(a: GoValue, b: GoValue)
    requires JsonValue(a) == JsonValue(b) && a.Table? && a.entries != map[]
    ensures CloneValue(a) == CloneValue(b) <==> AgreeOnEmpty(a, b)
    decreases a, 0
  {
    assert b.Table? && a.entries.Keys == JsonValue(a).entries.Keys == b.entries.Keys;
    forall k | k in a.entries
      ensures CloneValue(a.entries[k]) == CloneValue(b.entries[k]) <==> AgreeOnEmpty(a.entries[k], b.entries[k])
    {
      assert JsonValue(a).entries[k] == JsonValue(b).entries[k];
      SameJsonValue(a.entries[k], b.entries[k]);
    }
    CloneTablesEqual(a, b);
  }

  // The same, section by section.

  predicate ChassisAgree(a: Option<Chassis>, b: Option<Chassis>) {
    && a.Some? && a.value.cluster.Some? && b.Some? && b.value.cluster.Some?
    ==> AgreeOnEmpty(a.value.cluster.value.nodes, b.value.cluster.value.nodes)
  }

  predicate ProtocolsAgree(p: Protocols, q: Protocols) {
    AgreeOnEmpty(p.bfd, q.bfd) && AgreeOnEmpty(p.evpn, q.evpn) && AgreeOnEmpty(p.mpls, q.mpls)
        && AgreeOnEmpty(p.vrrp, q.vrrp)
  }

  function SshOf(s: Option<Security>): Option<NetconfSsh> {
    if s.Some? && s.value.netconf.Some? then s.value.netconf.value.ssh else None
  }

  predicate SecurityAgree(a: Option<Security>, b: Option<Security>) {
    && (a.Some? && b.Some? ==>
        AgreeOnEmpty(a.value.users, b.value.users) && AgreeOnEmpty(a.value.rateLimit, b.value.rateLimit))
    && (SshOf(a).Some? && SshOf(b).Some? ==> AgreeOnEmpty(SshOf(a).value.listen, SshOf(b).value.listen))
  }

  predicate ConfigsAgreeOnEmpty(a: RouterConfig, b: RouterConfig) {
    && AgreeOnEmpty(a.system, b.system) && AgreeOnEmpty(a.routingInstances, b.routingInstances)
    && AgreeOnEmpty(a.policy, b.policy) && AgreeOnEmpty(a.classOfService, b.classOfService)
    && ChassisAgree(a.chassis, b.chassis) && ProtocolsAgree(ProtocolsOf(a), ProtocolsOf(b))
    && SecurityAgree(a.security, b.security)
  }

  /** Whether "netconf ssh enabled" was given explicitly, which JSON does not record. */
  function EnabledSet(c: RouterConfig): bool {
    SshOf(c.security).Some? && SshOf(c.security).value.enabledSet
  }

  /**
   For configurations with equal hashes the diff is empty exactly when they agree on the
   one field JSON skips and on which collections are present but empty.
   */
  lemma EqualHashNoChangesIff(a: RouterConfig, b: RouterConfig)
    requires HashOf(a) == HashOf(b)
    ensures Seen(a) == Seen(b) <==> EnabledSet(a) == EnabledSet(b) && ConfigsAgreeOnEmpty(a, b)
  {
    SeenIsObservedUpToSections(a);
    SeenIsObservedUpToSections(b);
    SameJsonValue(a.system, b.system);
    SameJsonValue(a.routingInstances, b.routingInstances);
    SameJsonValue(a.policy, b.policy);
    SameJsonValue(a.classOfService, b.classOfService);
    SameJsonChassis(a.chassis, b.chassis);
    SameJsonProtocols(a, b);
    SameJsonSecurity(a.security, b.security);
  }

  lemma SameJsonChassis(a: Option<Chassis>, b: Option<Chassis>)
    requires a.Some? == b.Some? && (a.Some? ==> JsonChassis(a.value) == JsonChassis(b.value))
    ensures (a.Some? ==> CloneChassis(a.value) == CloneChassis(b.value)) <==> ChassisAgree(a, b)
  {
    if a.Some? && a.value.cluster.Some? {
      SameJsonValue(a.value.cluster.value.nodes, b.value.cluster.value.nodes);
    }
  }

  lemma SameJsonProtocols(a: RouterConfig, b: RouterConfig)
    requires a.protocols.Some? == b.protocols.Some?
    requires a.protocols.Some? ==> JsonProtocols(a.protocols.value) == JsonProtocols(b.protocols.value)
    ensures CloneProtocols(ProtocolsOf(a)) == CloneProtocols(ProtocolsOf(b)) <==>
            ProtocolsAgree(ProtocolsOf(a), ProtocolsOf(b))
    ensures ProtocolsOf(a).bgp == ProtocolsOf(b).bgp && ProtocolsOf(a).ospf == ProtocolsOf(b).ospf
    ensures ProtocolsOf(a).ospf3 == ProtocolsOf(b).ospf3
  {
    var p, q := ProtocolsOf(a), ProtocolsOf(b);
    SameJsonValue(p.bfd, q.bfd);
    SameJsonValue(p.evpn, q.evpn);
    SameJsonValue(p.mpls, q.mpls);
    SameJsonValue(p.vrrp, q.vrrp);
  }

  lemma SameJsonSecurity(a: Option<Security>, b: Option<Security>)
    requires a.Some? == b.Some? && (a.Some? ==> JsonSecurity(a.value) == JsonSecurity(b.value))
    ensures (a.Some? ==> CloneSecurity(a.value) == CloneSecurity(b.value))
       <==> SecurityAgree(a, b) && (SshOf(a).Some? && SshOf(a).value.enabledSet <==>
                                    SshOf(b).Some? && SshOf(b).value.enabledSet)
  {
    if a.Some? {
      SameJsonValue(a.value.users, b.value.users);
      SameJsonValue(a.value.rateLimit, b.value.rateLimit);
      if SshOf(a).Some? {
        SameJsonValue(SshOf(a).value.listen, SshOf(b).value.listen);
      }
    }
  }

  /** NETCONF over SSH disabled, by default or explicitly. */
  function SshDisabled(explicitly: bool): RouterConfig {
    var ssh := NetconfSsh(false, explicitly, Record([Scalar(""), Scalar("830")]));
    EMPTY_CONFIG.(security := Some(Security(Some(NetconfSecurity(Some(ssh))), Null, Null)))
  }

  /** Disabling it explicitly is a change to the diff and none to the hash. */
  lemma HashMissesExplicitDisable()
    ensures HashOf(SshDisabled(true)) == HashOf(SshDisabled(false))
    ensures Seen(SshDisabled(true)) != Seen(SshDisabled(false))
  {
    EqualHashNoChangesIff(SshDisabled(true), SshDisabled(false));
  }
}
