/**
 The interface part of the diff (internal/engine/diff.go): which names were added, removed
 or changed, and what changed on each.  The diff is proved to be a patch between the two
 sides, in both directions.
 */
module InterfaceDiff {
  import opened Wrappers
  import opened ConfigModel
  import opened Text

  type Interfaces = map<string, Option<InterfaceConfig>>

  datatype UnitAddress = UnitAddress(unitNum: int, family: string, address: string)

  datatype InterfaceChange = InterfaceChange(
    name: string, descriptionChanged: bool, oldDescription: string, newDescription: string,
    addressesAdded: seq<UnitAddress>, addressesRemoved: seq<UnitAddress>)

  datatype IfaceDiff = IfaceDiff(
    added: Interfaces, removed: seq<string>, changed: map<string, InterfaceChange>)

  // ---- What a plugin can observe of an interface ----------------------------

  datatype View = View(description: string, addresses: set<UnitAddress>)

  function FamilyAddresses(u: int, f: string, family: Option<AddressFamily>): set<UnitAddress> {
    if family.None? then {} else set a | a in family.value.addresses :: UnitAddress(u, f, a)
  }

  function UnitAddresses(u: int, unit: Option<Unit>): set<UnitAddress> {
    if unit.None? then {}
    else set f, a | f in unit.value.family && a in FamilyAddresses(u, f, unit.value.family[f]) :: a
  }

  function Addresses(ic: Option<InterfaceConfig>): set<UnitAddress> {
    if ic.None? then {} else set u, a | u in ic.value.units && a in UnitAddresses(u, ic.value.units[u]) :: a
  }

  function Description(ic: Option<InterfaceConfig>): string {
    if ic.None? then "" else ic.value.description
  }

  function ViewOf(ic: Option<InterfaceConfig>): View {
    View(Description(ic), Addresses(ic))
  }

  function Views(m: Interfaces): map<string, View> {
    map name | name in m :: ViewOf(m[name])
  }

  /** x is configured as an address of family f on unit u. */
  ghost predicate HasAddress(ic: Option<InterfaceConfig>, u: int, f: string, x: string) {
    && ic.Some? && u in ic.value.units && ic.value.units[u].Some?
    && f in ic.value.units[u].value.family && ic.value.units[u].value.family[f].Some?
    && x in ic.value.units[u].value.family[f].value.addresses
  }

  lemma AddressesExact(ic: Option<InterfaceConfig>, u: int, f: string, x: string)
    ensures UnitAddress(u, f, x) in Addresses(ic) <==> HasAddress(ic, u, f, x)
  {
    var a := UnitAddress(u, f, x);
    if HasAddress(ic, u, f, x) {
      var unit := ic.value.units[u];
      assert a in FamilyAddresses(u, f, unit.value.family[f]);
      assert a in UnitAddresses(u, unit);
    }
  }

  /** Two interfaces look the same exactly if they have the same description and the same addresses. */
  ghost predicate SameInterface(a: Option<InterfaceConfig>, b: Option<InterfaceConfig>) {
    && (if a.Some? then a.value.description else "") == (if b.Some? then b.value.description else "")
    && forall u, f, x :: HasAddress(a, u, f, x) <==> HasAddress(b, u, f, x)
  }

  lemma SameViewIff(a: Option<InterfaceConfig>, b: Option<InterfaceConfig>)
    ensures ViewOf(a) == ViewOf(b) <==> SameInterface(a, b)
  {
    if Addresses(a) == Addresses(b) {
      forall u, f, x ensures HasAddress(a, u, f, x) <==> HasAddress(b, u, f, x) {
        AddressesExact(a, u, f, x);
        AddressesExact(b, u, f, x);
      }
    }
    if SameInterface(a, b) {
      forall y ensures y in Addresses(a) <==> y in Addresses(b) {
        AddressesExact(a, y.unitNum, y.family, y.address);
        AddressesExact(b, y.unitNum, y.family, y.address);
      }
    }
  }

  function Elements<T>(s: seq<T>): set<T> {
    set x | x in s
  }

  // ---- The diff as a relation -----------------------------------------------

  ghost predicate IsChange(name: string, was: Option<InterfaceConfig>, now: Option<InterfaceConfig>,
                           c: InterfaceChange) {
    && c.name == name
    && c.descriptionChanged == (Description(was) != Description(now))
    && c.oldDescription == (if c.descriptionChanged then Description(was) else "")
    && c.newDescription == (if c.descriptionChanged then Description(now) else "")
    && Elements(c.addressesAdded) == Addresses(now) - Addresses(was)
    && Elements(c.addressesRemoved) == Addresses(was) - Addresses(now)
  }

  /** Everything but the order and repetition of addresses is determined. */
  ghost predicate IsIfaceDiff(was: Interfaces, now: Interfaces, d: IfaceDiff) {
    && d.added == (map name | name in now && name !in was :: now[name])
    && Sorted(d.removed) && Distinct(d.removed)
    && Elements(d.removed) == was.Keys - now.Keys
    && d.changed.Keys == (set name | name in was && name in now && ViewOf(was[name]) != ViewOf(now[name]))
    && forall name :: name in d.changed ==> IsChange(name, was[name], now[name], d.changed[name])
  }

  lemma EmptyOrHasElement<T>(s: seq<T>)
    ensures s == [] || exists x :: x in s
  {
    if s != [] { assert s[0] in s; }
  }

  // ---- The loops ------------------------------------------------------------

  method CollectUnit(unitNum: int, unit: Option<Unit>) returns (result: seq<UnitAddress>)
    ensures Elements(result) == UnitAddresses(unitNum, unit)
  {
    result := [];
    if unit.None? { return; }
    var todo := unit.value.family.Keys;
    while todo != {}
      invariant todo <= unit.value.family.Keys
      invariant forall a :: a in result <==>
        exists f :: f in unit.value.family && f !in todo && a in FamilyAddresses(unitNum, f, unit.value.family[f])
    {
      var f :| f in todo;
      todo := todo - {f};
      var family := unit.value.family[f];
      if family.Some? {
        ghost var before := result;
        var addresses := family.value.addresses;
        for i := 0 to |addresses|
          invariant forall a :: a in result <==>
                      a in before || exists j :: 0 <= j < i && a == UnitAddress(unitNum, f, addresses[j])
        {
          result := result + [UnitAddress(unitNum, f, addresses[i])];
        }
        assert forall a :: a in result <==> a in before || a in FamilyAddresses(unitNum, f, family);
      }
    }
  }

  /** collectAddresses: the order follows map iteration, the set does not. */
  method CollectAddresses(ic: Option<InterfaceConfig>) returns (result: seq<UnitAddress>)
    ensures Elements(result) == Addresses(ic)
  {
    result := [];
    if ic.None? { return; }
    var todo := ic.value.units.Keys;
    while todo != {}
      invariant todo <= ic.value.units.Keys
      invariant forall a :: a in result <==>
        exists u :: u in ic.value.units && u !in todo && a in UnitAddresses(u, ic.value.units[u])
    {
      var u := Pick(todo);
      todo := todo - {u};
      var part := CollectUnit(u, ic.value.units[u]);
      assert forall a :: a in part <==> a in Elements(part);
      result := result + part;
    }
  }

  method Missing(from: seq<UnitAddress>, against: seq<UnitAddress>) returns (result: seq<UnitAddress>)
    ensures Elements(result) == Elements(from) - Elements(against)
  {
    result := [];
    for i := 0 to |from|
      invariant forall a :: a in result <==> a in from[..i] && a !in against
    {
      if from[i] !in against {
        result := result + [from[i]];
      }
    }
    assert from[..|from|] == from;
  }

  /** diffInterface: nil exactly when the two interfaces look the same. */
  method DiffInterface(name: string, was: Option<InterfaceConfig>, now: Option<InterfaceConfig>)
    returns (change: Option<InterfaceChange>)
    ensures change.Some? <==> ViewOf(was) != ViewOf(now)
    ensures change.Some? ==> IsChange(name, was, now, change.value)
  {
    var c := InterfaceChange(name, false, "", "", [], []);
    var oldDescription, newDescription := Description(was), Description(now);
    if oldDescription != newDescription {
      c := c.(descriptionChanged := true, oldDescription := oldDescription, newDescription := newDescription);
    }
    var oldAddrs := CollectAddresses(was);
    var newAddrs := CollectAddresses(now);
    var added := Missing(newAddrs, oldAddrs);
    var removed := Missing(oldAddrs, newAddrs);
    c := c.(addressesAdded := added, addressesRemoved := removed);
    assert forall a :: (a in added <==> a in Elements(added)) && (a in removed <==> a in Elements(removed));
    if !c.descriptionChanged && added == [] && removed == [] {
      return None;
    }
    assert added != [] ==> added[0] in Elements(added);
    assert removed != [] ==> removed[0] in Elements(removed);
    return Some(c);
  }

  /** computeInterfaceDiff. */
  method ComputeInterfaceDiff(was: Interfaces, now: Interfaces) returns (d: IfaceDiff)
    ensures IsIfaceDiff(was, now, d)
  {
    var removed: seq<string> := [];
    var changed: map<string, InterfaceChange> := map[];
    var todo := was.Keys;
    while todo != {}
      invariant todo <= was.Keys
      invariant Distinct(removed)
      invariant forall name :: name in removed <==> name in was && name !in todo && name !in now
      invariant forall name :: name in changed <==>
        name in was && name !in todo && name in now && ViewOf(was[name]) != ViewOf(now[name])
      invariant forall name :: name in changed ==> IsChange(name, was[name], now[name], changed[name])
    {
      var name :| name in todo;
      todo := todo - {name};
      if name !in now {
        removed := removed + [name];
      } else {
        var change := DiffInterface(name, was[name], now[name]);
        if change.Some? {
          changed := changed[name := change.value];
        }
      }
    }
    SortKeepsDistinct(removed);
    d := IfaceDiff(map name | name in now && name !in was :: now[name], SortStrings(removed), changed);
  }

  // ---- The diff is a patch --------------------------------------------------

  function Patched(v: View, c: InterfaceChange): View {
    View(if c.descriptionChanged then c.newDescription else v.description,
         (v.addresses - Elements(c.addressesRemoved)) + Elements(c.addressesAdded))
  }

  function Unpatched(v: View, c: InterfaceChange): View {
    View(if c.descriptionChanged then c.oldDescription else v.description,
         (v.addresses - Elements(c.addressesAdded)) + Elements(c.addressesRemoved))
  }

  /** Replays a diff on the interfaces a system has: what ApplyChanges is handed the diff for. */
  function Patch(have: map<string, View>, d: IfaceDiff): map<string, View> {
    map name | name in have.Keys + d.added.Keys && name !in d.removed ::
      if name in d.added then ViewOf(d.added[name])
      else if name in d.changed then Patched(have[name], d.changed[name])
      else have[name]
  }

  /** Takes a diff back; what was removed is recreated from the old configuration. */
  function Unpatch(have: map<string, View>, d: IfaceDiff, was: Interfaces): map<string, View>
    requires forall name :: name in d.removed ==> name in was
  {
    map name | name in have.Keys + Elements(d.removed) && name !in d.added ::
      if name in d.removed then ViewOf(was[name])
      else if name in d.changed then Unpatched(have[name], d.changed[name])
      else have[name]
  }

  predicate Unchanged(d: IfaceDiff) {
    d.added == map[] && d.removed == [] && d.changed == map[]
  }

  /** Added, removed and changed names never overlap and are exactly the names that differ. */
  lemma DiffNamesExact(was: Interfaces, now: Interfaces, d: IfaceDiff)
    requires IsIfaceDiff(was, now, d)
    ensures d.added.Keys !! Elements(d.removed) && d.added.Keys !! d.changed.Keys
    ensures Elements(d.removed) !! d.changed.Keys
    ensures forall name :: name in d.added || name in d.removed || name in d.changed <==>
              (name in was || name in now) && !(name in was && name in now && ViewOf(was[name]) == ViewOf(now[name]))
  {
    assert forall name :: name in d.removed <==> name in Elements(d.removed);
    forall name ensures name in d.changed <==> name in was && name in now && ViewOf(was[name]) != ViewOf(now[name]) {
      assert name in d.changed <==> name in d.changed.Keys;
    }
  }

  /** The same change, but for the order and repetition of addresses. */
  ghost predicate SameChange(c: InterfaceChange, d: InterfaceChange) {
    && c == d.(addressesAdded := c.addressesAdded, addressesRemoved := c.addressesRemoved)
    && Elements(c.addressesAdded) == Elements(d.addressesAdded)
    && Elements(c.addressesRemoved) == Elements(d.addressesRemoved)
  }

  /** The diff does not depend on map order, but for the order and repetition of addresses in a change. */
  lemma DiffDetermined(was: Interfaces, now: Interfaces, d: IfaceDiff, e: IfaceDiff)
    requires IsIfaceDiff(was, now, d) && IsIfaceDiff(was, now, e)
    ensures d.added == e.added && d.removed == e.removed && d.changed.Keys == e.changed.Keys
    ensures forall name :: name in d.changed ==> name in e.changed && SameChange(d.changed[name], e.changed[name])
  {
    assert forall x :: (x in d.removed <==> x in Elements(d.removed)) && (x in e.removed <==> x in Elements(e.removed));
    CanonicalForm(d.removed, e.removed);
  }

  /** The diff is empty exactly when the two sides look the same. */
  lemma EmptyDiffIffSame(was: Interfaces, now: Interfaces, d: IfaceDiff)
    requires IsIfaceDiff(was, now, d)
    ensures Unchanged(d) <==> Views(was) == Views(now)
  {
    DiffNamesExact(was, now, d);
    if Unchanged(d) {
      assert forall name :: name !in d.added && name !in d.removed && name !in d.changed;
      assert Views(was).Keys == Views(now).Keys;
    }
    if Views(was) == Views(now) {
      assert was.Keys == Views(was).Keys == Views(now).Keys == now.Keys;
      forall name ensures name !in d.added && name !in d.removed && name !in d.changed {
        if name in was { assert Views(was)[name] == Views(now)[name]; }
      }
      EmptyOrHasElement(d.removed);
    }
  }

  /** Applying the diff to the old interfaces gives the new ones. */
  lemma PatchGivesNew(was: Interfaces, now: Interfaces, d: IfaceDiff)
    requires IsIfaceDiff(was, now, d)
    ensures Patch(Views(was), d) == Views(now)
  {
    assert forall name :: name in d.removed <==> name in Elements(d.removed);
    assert Patch(Views(was), d).Keys == now.Keys;
    forall name | name in now ensures Patch(Views(was), d)[name] == Views(now)[name] {
      if name in d.changed {
        assert IsChange(name, was[name], now[name], d.changed[name]);
        PatchView(name, was[name], now[name], d.changed[name]);
      } else if name in was {
        assert name !in (set n | n in was && n in now && ViewOf(was[n]) != ViewOf(now[n]));
      }
    }
  }

  /** Undoing the diff on the new interfaces, with the old configuration at hand, gives the old ones. */
  lemma UnpatchGivesOld(was: Interfaces, now: Interfaces, d: IfaceDiff)
    requires IsIfaceDiff(was, now, d)
    ensures forall name :: name in d.removed ==> name in was
    ensures Unpatch(Views(now), d, was) == Views(was)
  {
    assert forall name :: name in d.removed <==> name in Elements(d.removed);
    assert Unpatch(Views(now), d, was).Keys == was.Keys;
    forall name | name in was ensures Unpatch(Views(now), d, was)[name] == Views(was)[name] {
      if name in d.changed {
        assert IsChange(name, was[name], now[name], d.changed[name]);
        PatchView(name, was[name], now[name], d.changed[name]);
      } else if name in now {
        assert name !in (set n | n in was && n in now && ViewOf(was[n]) != ViewOf(now[n]));
      }
    }
  }

  lemma PatchView(name: string, was: Option<InterfaceConfig>, now: Option<InterfaceConfig>, c: InterfaceChange)
    requires IsChange(name, was, now, c)
    ensures Patched(ViewOf(was), c) == ViewOf(now)
    ensures Unpatched(ViewOf(now), c) == ViewOf(was)
  {
    assert (Addresses(was) - (Addresses(was) - Addresses(now))) + (Addresses(now) - Addresses(was)) == Addresses(now);
    assert (Addresses(now) - (Addresses(now) - Addresses(was))) + (Addresses(was) - Addresses(now)) == Addresses(was);
  }
}
