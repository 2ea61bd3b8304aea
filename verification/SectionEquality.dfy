/**
 The hand-written comparison loops of internal/engine/diff.go.  Each walks one side only
 and relies on a length test to rule out extra entries on the other side; each is proved
 to decide equality of the two sections in both directions.
 */
module SectionEquality {
  import opened Wrappers
  import opened ConfigModel

  lemma {:induction false} SubsetOfSameSize<T>(a: set<T>, b: set<T>)
    requires a <= b && |a| == |b|
    ensures a == b
  {
    if a != b {
      var x :| x in b && x !in a;
      assert a <= b - {x};
      SubsetSize(a, b - {x});
    }
  }

  /** One-directional agreement plus equal sizes is equality. */
  lemma OneWayAgreement<K, V>(a: map<K, V>, b: map<K, V>)
    requires |a| == |b|
    requires forall k :: k in a ==> k in b && a[k] == b[k]
    ensures a == b
  {
    assert a.Keys <= b.Keys && |a.Keys| == |a| && |b.Keys| == |b|;
    SubsetOfSameSize(a.Keys, b.Keys);
  }

  method NeighborsEqual(a: map<string, BgpNeighbor>, b: map<string, BgpNeighbor>) returns (eq: bool)
    ensures eq <==> a == b
  {
    if |a| != |b| { return false; }
    var todo := a.Keys;
    while todo != {}
      invariant todo <= a.Keys
      invariant forall ip :: ip in a && ip !in todo ==> ip in b && a[ip] == b[ip]
    {
      var ip :| ip in todo;
      todo := todo - {ip};
      if ip !in b { return false; }
      var an, bn := a[ip], b[ip];
      if an.peerAS != bn.peerAS || an.description != bn.description || an.localAddress != bn.localAddress ||
         an.bfd != bn.bfd || an.bfdProfile != bn.bfdProfile {
        return false;
      }
    }
    OneWayAgreement(a, b);
    return true;
  }

  /** bgpEqual. */
  method BgpEqual(a: Option<BgpConfig>, b: Option<BgpConfig>) returns (eq: bool)
    ensures eq <==> a == b
  {
    if a.None? && b.None? { return true; }
    if a.None? || b.None? { return false; }
    var ags, bgs := a.value.groups, b.value.groups;
    if |ags| != |bgs| { return false; }
    var todo := ags.Keys;
    while todo != {}
      invariant todo <= ags.Keys
      invariant forall name :: name in ags && name !in todo ==> name in bgs && ags[name] == bgs[name]
    {
      var name :| name in todo;
      todo := todo - {name};
      if name !in bgs { return false; }
      var ag, bg := ags[name], bgs[name];
      if ag.groupType != bg.groupType || ag.importPolicy != bg.importPolicy || ag.exportPolicy != bg.exportPolicy {
        return false;
      }
      var same := NeighborsEqual(ag.neighbors, bg.neighbors);
      if !same { return false; }
    }
    OneWayAgreement(ags, bgs);
    return true;
  }

  method OspfInterfacesEqual(a: map<string, OspfInterface>, b: map<string, OspfInterface>) returns (eq: bool)
    ensures eq <==> a == b
  {
    if |a| != |b| { return false; }
    var todo := a.Keys;
    while todo != {}
      invariant todo <= a.Keys
      invariant forall name :: name in a && name !in todo ==> name in b && a[name] == b[name]
    {
      var name :| name in todo;
      todo := todo - {name};
      if name !in b { return false; }
      var ai, bi := a[name], b[name];
      if ai.passive != bi.passive || ai.metric != bi.metric || ai.bfd != bi.bfd || ai.bfdProfile != bi.bfdProfile {
        return false;
      }
      if ai.priority.None? != bi.priority.None? { return false; }
      if ai.priority.Some? && ai.priority.value != bi.priority.value { return false; }
    }
    OneWayAgreement(a, b);
    return true;
  }

  /** ospfEqual, used for OSPF and OSPFv3. */
  method OspfEqual(a: Option<OspfConfig>, b: Option<OspfConfig>) returns (eq: bool)
    ensures eq <==> a == b
  {
    if a.None? && b.None? { return true; }
    if a.None? || b.None? { return false; }
    if a.value.routerID != b.value.routerID { return false; }
    var aas, bas := a.value.areas, b.value.areas;
    if |aas| != |bas| { return false; }
    var todo := aas.Keys;
    while todo != {}
      invariant todo <= aas.Keys
      invariant forall id :: id in aas && id !in todo ==> id in bas && aas[id] == bas[id]
    {
      var id :| id in todo;
      todo := todo - {id};
      if id !in bas { return false; }
      var same := OspfInterfacesEqual(aas[id].interfaces, bas[id].interfaces);
      if !same { return false; }
    }
    OneWayAgreement(aas, bas);
    return true;
  }

  /** staticRoutesEqual. */
  method StaticRoutesEqual(a: seq<StaticRoute>, b: seq<StaticRoute>) returns (eq: bool)
    ensures eq <==> a == b
  {
    if |a| != |b| { return false; }
    for i := 0 to |a|
      invariant forall j :: 0 <= j < i ==> a[j] == b[j]
    {
      if a[i].prefix != b[i].prefix || a[i].nextHop != b[i].nextHop || a[i].distance != b[i].distance ||
         a[i].bfd != b[i].bfd || a[i].bfdProfile != b[i].bfdProfile || a[i].bfdSource != b[i].bfdSource ||
         a[i].bfdMultihop != b[i].bfdMultihop {
        return false;
      }
    }
    return true;
  }
}
