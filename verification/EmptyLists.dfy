/**
 What Clone forgets (internal/model/clone.go): append([]string(nil), s...) turns an empty []string into
 nil and keeps everything else.  So two trees have equal clones exactly if they have the same
 structure up to nil against empty string lists, and a tree is its own clone exactly if
 it has no empty string list.
 */
module EmptyLists {
  import opened Wrappers
  import opened ConfigModel
  import opened Diff

  // ---- Values ---------------------------------------------------------------

  /** A nil or empty string list. */
  predicate NoStrings(v: GoValue) {
    v == Null || v == Strings([])
  }

  /** The same tree, except that a string list may be nil in one and empty in the other. */
  predicate SameUpToEmptyLists(a: GoValue, b: GoValue)
    decreases a
  {
    if NoStrings(a) || NoStrings(b) then NoStrings(a) && NoStrings(b)
    else match a
      case Pointers(elems) =>
        b.Pointers? && |b.elems| == |elems| && forall i :: 0 <= i < |elems| ==> SameUpToEmptyLists(elems[i], b.elems[i])
      case Table(entries) =>
        && b.Table? && b.entries.Keys == entries.Keys
        && forall k :: k in entries ==> k in b.entries && SameUpToEmptyLists(entries[k], b.entries[k])
      case Record(fields) =>
        b.Record? && |b.fields| == |fields| && forall i :: 0 <= i < |fields| ==>
                                                 SameUpToEmptyLists(fields[i], b.fields[i])
      case _ => a == b
  }

  /** Some string list of the tree is present and empty. */
  predicate HasEmptyList(v: GoValue)
    decreases v
  {
    match v
    case Strings(items) => items == []
    case Pointers(elems) => exists i :: 0 <= i < |elems| && HasEmptyList(elems[i])
    case Table(entries) => exists k :: k in entries && HasEmptyList(entries[k])
    case Record(fields) => exists i :: 0 <= i < |fields| && HasEmptyList(fields[i])
    case _ => false
  }

  lemma CloneTablesEqual(a: GoValue, b: GoValue)
    requires a.Table? && b.Table? && a.entries.Keys == b.entries.Keys
    ensures CloneValue(a) == CloneValue(b) <==>
            forall k :: k in a.entries ==> CloneValue(a.entries[k]) == CloneValue(b.entries[k])
  {
    var x, y := CloneValue(a).entries, CloneValue(b).entries;
    assert x.Keys == y.Keys;
    assert forall k :: k in a.entries ==> x[k] == CloneValue(a.entries[k]) && y[k] == CloneValue(b.entries[k]);
    assert x == y <==> forall k :: k in a.entries ==> x[k] == y[k];
  }

  lemma CloneSeqsEqual(a: seq<GoValue>, b: seq<GoValue>, x: seq<GoValue>, y: seq<GoValue>)
    requires |x| == |a| == |b| == |y|
    requires forall i :: 0 <= i < |a| ==> x[i] == CloneValue(a[i]) && y[i] == CloneValue(b[i])
    ensures x == y <==> forall i :: 0 <= i < |a| ==> CloneValue(a[i]) == CloneValue(b[i])
  {
    if forall i :: 0 <= i < |a| ==> CloneValue(a[i]) == CloneValue(b[i]) {
      assert forall i :: 0 <= i < |x| ==> x[i] == y[i];
    }
  }

  lemma CloneKeepsShape(v: GoValue)
    ensures v.Pointers? <==> CloneValue(v).Pointers?
    ensures v.Table? <==> CloneValue(v).Table?
    ensures v.Record? <==> CloneValue(v).Record?
    ensures v.Pointers? ==> |CloneValue(v).elems| == |v.elems|
    ensures v.Table? ==> CloneValue(v).entries.Keys == v.entries.Keys
    ensures v.Record? ==> |CloneValue(v).fields| == |v.fields|
  {
  }

  /** Equal clones: the same structure up to nil against empty string lists. */
  lemma {:induction false} SameCloneIff(a: GoValue, b: GoValue)
    ensures CloneValue(a) == CloneValue(b) <==> SameUpToEmptyLists(a, b)
    decreases a
  {
    CloneKeepsShape(a);
    CloneKeepsShape(b);
    if !NoStrings(a) && !NoStrings(b) {
      match a
      case Pointers(elems) =>
        if b.Pointers? && |b.elems| == |elems| {
          forall i | 0 <= i < |elems| { SameCloneIff(elems[i], b.elems[i]); }
          CloneSeqsEqual(elems, b.elems, CloneValue(a).elems, CloneValue(b).elems);
        }
      case Table(entries) =>
        if b.Table? && b.entries.Keys == entries.Keys {
          forall k | k in entries { SameCloneIff(entries[k], b.entries[k]); }
          CloneTablesEqual(a, b);
        }
      case Record(fields) =>
        if b.Record? && |b.fields| == |fields| {
          forall i | 0 <= i < |fields| { SameCloneIff(fields[i], b.fields[i]); }
          CloneSeqsEqual(fields, b.fields, CloneValue(a).fields, CloneValue(b).fields);
        }
      case _ =>
    }
  }

  /** A tree is its own clone exactly if it has no empty string list. */
  lemma {:induction false} OwnCloneIff(v: GoValue)
    ensures CloneValue(v) == v <==> !HasEmptyList(v)
  {
    match v
    case Pointers(elems) =>
      forall i | 0 <= i < |elems| { OwnCloneIff(elems[i]); }
      assert CloneValue(v) == v <==> CloneValue(v).elems == elems;
      assert CloneValue(v).elems == elems <==> forall i :: 0 <= i < |elems| ==> CloneValue(elems[i]) == elems[i];
    case Table(entries) =>
      forall k | k in entries { OwnCloneIff(entries[k]); }
      assert CloneValue(v) == v <==> CloneValue(v).entries == entries;
      assert CloneValue(v).entries == entries <==> forall k :: k in entries ==> CloneValue(entries[k]) == entries[k];
    case Record(fields) =>
      forall i | 0 <= i < |fields| { OwnCloneIff(fields[i]); }
      assert CloneValue(v) == v <==> CloneValue(v).fields == fields;
      assert CloneValue(v).fields == fields <==> forall i :: 0 <= i < |fields| ==> CloneValue(fields[i]) == fields[i];
    case _ =>
  }

  // ---- Sections -------------------------------------------------------------

  predicate SameEndpointsUpToEmpty(a: Option<seq<string>>, b: Option<seq<string>>) {
    a == b || (a in {None, Some([])} && b in {None, Some([])})
  }

  predicate SameSync(a: Option<ClusterSync>, b: Option<ClusterSync>) {
    && a.Some? == b.Some?
    && (a.Some? ==>
        && a.value.etcd.Some? == b.value.etcd.Some?
        && (a.value.etcd.Some? ==> SameEndpointsUpToEmpty(a.value.etcd.value.endpoints, b.value.etcd.value.endpoints)))
  }

  predicate SameChassis(a: Option<Chassis>, b: Option<Chassis>) {
    && a.Some? == b.Some?
    && (a.Some? ==>
        && a.value.cluster.Some? == b.value.cluster.Some?
        && (a.value.cluster.Some? ==>
            var k, l := a.value.cluster.value, b.value.cluster.value;
            k.enabled == l.enabled && SameUpToEmptyLists(k.nodes, l.nodes) && SameSync(k.sync, l.sync)))
  }

  predicate SameNetconf(a: Option<NetconfSecurity>, b: Option<NetconfSecurity>) {
    && a.Some? == b.Some?
    && (a.Some? ==>
        && a.value.ssh.Some? == b.value.ssh.Some?
        && (a.value.ssh.Some? ==>
            var s, t := a.value.ssh.value, b.value.ssh.value;
            s.enabled == t.enabled && s.enabledSet == t.enabledSet && SameUpToEmptyLists(s.listen, t.listen)))
  }

  predicate SameSecurity(a: Option<Security>, b: Option<Security>) {
    && a.Some? == b.Some?
    && (a.Some? ==>
        && SameNetconf(a.value.netconf, b.value.netconf)
        && SameUpToEmptyLists(a.value.users, b.value.users) && SameUpToEmptyLists(a.value.rateLimit, b.value.rateLimit))
  }

  /** The sections compared with reflect.DeepEqual are the same up to nil against empty string lists. */
  predicate SameSections(s: Sections, t: Sections) {
    && SameUpToEmptyLists(s.bfd, t.bfd) && SameUpToEmptyLists(s.evpn, t.evpn) && SameUpToEmptyLists(s.mpls, t.mpls)
    && SameUpToEmptyLists(s.vrrp, t.vrrp) && SameUpToEmptyLists(s.routingInstances, t.routingInstances)
    && SameUpToEmptyLists(s.policy, t.policy) && SameUpToEmptyLists(s.classOfService, t.classOfService)
    && SameUpToEmptyLists(s.system, t.system)
    && SameChassis(s.chassis, t.chassis) && SameSecurity(s.security, t.security)
  }

  function CloneSections(s: Sections): Sections {
    Sections(
      CloneValue(s.bfd), CloneValue(s.evpn), CloneValue(s.mpls), CloneValue(s.vrrp), CloneValue(s.routingInstances),
      CloneValue(s.policy), if s.chassis.None? then None else Some(CloneChassis(s.chassis.value)),
      CloneValue(s.classOfService), CloneValue(s.system),
      if s.security.None? then None else Some(CloneSecurity(s.security.value)))
  }

  lemma SameChassisIff(a: Option<Chassis>, b: Option<Chassis>)
    ensures SameChassis(a, b) <==>
            a.Some? == b.Some? && (a.Some? ==> CloneChassis(a.value) == CloneChassis(b.value))
  {
    if a.Some? && b.Some? && a.value.cluster.Some? && b.value.cluster.Some? {
      SameCloneIff(a.value.cluster.value.nodes, b.value.cluster.value.nodes);
    }
  }

  lemma SameNetconfIff(a: Security, b: Security)
    ensures SameNetconf(a.netconf, b.netconf) <==> CloneSecurity(a).netconf == CloneSecurity(b).netconf
  {
    if a.netconf.Some? && b.netconf.Some? && a.netconf.value.ssh.Some? && b.netconf.value.ssh.Some? {
      SameCloneIff(a.netconf.value.ssh.value.listen, b.netconf.value.ssh.value.listen);
    }
  }

  lemma SameSecurityIff(a: Option<Security>, b: Option<Security>)
    ensures SameSecurity(a, b) <==>
            a.Some? == b.Some? && (a.Some? ==> CloneSecurity(a.value) == CloneSecurity(b.value))
  {
    if a.Some? && b.Some? {
      SameNetconfIff(a.value, b.value);
      SameCloneIff(a.value.users, b.value.users);
      SameCloneIff(a.value.rateLimit, b.value.rateLimit);
    }
  }

  lemma SameSectionsIff(s: Sections, t: Sections)
    ensures CloneSections(s) == CloneSections(t) <==> SameSections(s, t)
  {
    SameCloneIff(s.bfd, t.bfd);
    SameCloneIff(s.evpn, t.evpn);
    SameCloneIff(s.mpls, t.mpls);
    SameCloneIff(s.vrrp, t.vrrp);
    SameCloneIff(s.routingInstances, t.routingInstances);
    SameCloneIff(s.policy, t.policy);
    SameCloneIff(s.classOfService, t.classOfService);
    SameCloneIff(s.system, t.system);
    SameChassisIff(s.chassis, t.chassis);
    SameSecurityIff(s.security, t.security);
  }

  // ---- Present and empty ------------------------------------------------------

  predicate ChassisHasEmptyList(c: Option<Chassis>) {
    c.Some? && c.value.cluster.Some?
    && var k := c.value.cluster.value;
       || HasEmptyList(k.nodes)
       || (k.sync.Some? && k.sync.value.etcd.Some? && k.sync.value.etcd.value.endpoints == Some([]))
  }

  predicate SecurityHasEmptyList(s: Option<Security>) {
    s.Some?
    && (|| HasEmptyList(s.value.users) || HasEmptyList(s.value.rateLimit)
        || (s.value.netconf.Some? && s.value.netconf.value.ssh.Some?
            && HasEmptyList(s.value.netconf.value.ssh.value.listen)))
  }

  /** The sections that are plain values. */
  function ValuesOf(s: Sections): seq<GoValue> {
    [s.bfd, s.evpn, s.mpls, s.vrrp, s.routingInstances, s.policy, s.classOfService, s.system]
  }

  /** Some string list in these sections is present and empty. */
  predicate SectionsHaveEmptyList(s: Sections) {
    || (exists v :: v in ValuesOf(s) && HasEmptyList(v))
    || ChassisHasEmptyList(s.chassis) || SecurityHasEmptyList(s.security)
  }

  lemma OwnChassisIff(c: Chassis)
    ensures CloneChassis(c) == c <==> !ChassisHasEmptyList(Some(c))
  {
    if c.cluster.Some? {
      OwnCloneIff(c.cluster.value.nodes);
    }
  }

  lemma OwnSecurityIff(s: Security)
    ensures CloneSecurity(s) == s <==> !SecurityHasEmptyList(Some(s))
  {
    OwnCloneIff(s.users);
    OwnCloneIff(s.rateLimit);
    if s.netconf.Some? && s.netconf.value.ssh.Some? {
      OwnCloneIff(s.netconf.value.ssh.value.listen);
    }
  }

  lemma ValuesAreCloned(s: Sections)
    ensures CloneSections(s).(chassis := s.chassis, security := s.security) == s <==>
            forall i :: 0 <= i < |ValuesOf(s)| ==> CloneValue(ValuesOf(s)[i]) == ValuesOf(s)[i]
  {
    var vs := ValuesOf(s);
    assert s.bfd == vs[0] && s.evpn == vs[1] && s.mpls == vs[2] && s.vrrp == vs[3];
    assert s.routingInstances == vs[4] && s.policy == vs[5] && s.classOfService == vs[6] && s.system == vs[7];
  }

  lemma OwnSeqIff(vs: seq<GoValue>)
    ensures (forall i :: 0 <= i < |vs| ==> CloneValue(vs[i]) == vs[i]) <==> !(exists v :: v in vs && HasEmptyList(v))
  {
    forall i | 0 <= i < |vs| ensures CloneValue(vs[i]) == vs[i] <==> !HasEmptyList(vs[i]) { OwnCloneIff(vs[i]); }
    if i :| 0 <= i < |vs| && HasEmptyList(vs[i]) {
      assert vs[i] in vs;
    }
  }

  lemma OwnSectionsIff(s: Sections)
    ensures CloneSections(s) == s <==> !SectionsHaveEmptyList(s)
  {
    ValuesAreCloned(s);
    OwnSeqIff(ValuesOf(s));
    if s.chassis.Some? {
      OwnChassisIff(s.chassis.value);
      assert s.chassis == Some(s.chassis.value);
    }
    if s.security.Some? {
      OwnSecurityIff(s.security.value);
      assert s.security == Some(s.security.value);
    }
  }
}
