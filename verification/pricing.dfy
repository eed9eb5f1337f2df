/** The event builder's pricing: the flavour count, the extra balangs charged
    beyond the package's flavour limit (priced through the one add-on whose
    name is exactly `Additional 1 x 23L Balang`), the final total and the
    readiness to book. All of it is derived from the cart and the add-on
    catalogue; nothing here changes the cart. */
module Pricing {
  import opened Common
  import opened Catalog
  import Lines
  import opened CartStore

  /** The name that designates the overflow add-on. */
  const OverflowAddonName := "Additional 1 x 23L Balang"

  /** The number of balangs selected: the sum of the drink lines' quantities. */
  function TotalFlavorCount(s: CartState): (n: int)
    ensures |s.items| == 0 ==> n == 0
    ensures Lines.Positive(s.items) ==> n >= |s.items|
  {
    assert Lines.Positive(s.items) ==> Lines.TotalQuantity(s.items) >= |s.items| by {
      if Lines.Positive(s.items) { Lines.TotalAtLeastLength(s.items); }
    }
    Lines.TotalQuantity(s.items)
  }

  /** `addons.find(a => a.name === name)`: the first add-on with that exact name. */
  function FindByName(addons: seq<Addon>, name: string): (r: Option<Addon>)
    ensures r.None? <==> forall i :: 0 <= i < |addons| ==> addons[i].name != name
    ensures r.Some? ==> r.value.name == name
    ensures r.Some? ==>
      exists k :: 0 <= k < |addons| && addons[k] == r.value && forall j :: 0 <= j < k ==> addons[j].name != name
  {
    FindFirst(addons, (a: Addon) => a.name == name)
  }

  /** The overflow add-on of a catalogue, if it has one. */
  function OverflowAddon(catalog: seq<Addon>): Option<Addon> {
    FindByName(catalog, OverflowAddonName)
  }

  /** The memoised `{extraBalangsCount, extraBalangAddon, extraBalangsCost}`. */
  datatype ExtraBalangs = ExtraBalangs(count: int, addon: Option<Addon>, cost: int)

  /** Extra balangs for a package, a flavour count and a catalogue. */
  function Extra(pkg: Option<Package>, flavorCount: int, catalog: seq<Addon>): (r: ExtraBalangs)
    ensures r.count == (if pkg.Some? && OverflowAddon(catalog).Some?
                        then Max(0, flavorCount - pkg.value.flavorLimit) else 0)
    ensures r.addon.Some? <==> r.count > 0
    ensures r.addon.Some? ==> r.addon == OverflowAddon(catalog) && r.cost == r.count * r.addon.value.price
    ensures r.addon.None? ==> r.cost == 0
  {
    if pkg.None? || flavorCount <= pkg.value.flavorLimit then ExtraBalangs(0, None, 0)
    else
      var extraCount := flavorCount - pkg.value.flavorLimit;
      match OverflowAddon(catalog)
      case None => ExtraBalangs(0, None, 0)
      case Some(balang) => ExtraBalangs(extraCount, Some(balang), extraCount * balang.price)
  }

  /** The extra balangs of a cart state. */
  function ExtraOf(s: CartState, catalog: seq<Addon>): ExtraBalangs {
    Extra(s.selectedPackage, TotalFlavorCount(s), catalog)
  }

  /** `selectedPackage?.price || 0`. */
  function PackageCost(pkg: Option<Package>): int {
    if pkg.Some? then pkg.value.price else 0
  }

  /** What one add-on line costs: its price times its quantity. */
  function LineCost(l: AddonItem): int {
    l.entry.price * l.quantity
  }

  /** Sum of price times quantity over the selected add-on lines. */
  function ManualAddonsCost(lines: seq<AddonItem>): int {
    if |lines| == 0 then 0
    else LineCost(lines[0]) + ManualAddonsCost(lines[1..])
  }

  /** Package price, plus manually chosen add-ons, plus the extra balangs. */
  function FinalTotalCost(s: CartState, catalog: seq<Addon>): int {
    PackageCost(s.selectedPackage) + ManualAddonsCost(s.selectedAddons) + ExtraOf(s, catalog).cost
  }

  /** Ready to book once a package is chosen and the flavours reach its limit. */
  function IsBookingReady(s: CartState): bool {
    if s.selectedPackage.Some? then TotalFlavorCount(s) >= s.selectedPackage.value.flavorLimit else false
  }

  // ---------------------------------------------------------------------------
  // Extra balangs
  // ---------------------------------------------------------------------------

  /** Without a package, or at or under the limit, there is nothing extra. */
  lemma NoExtraWithinLimit(s: CartState, catalog: seq<Addon>)
    requires s.selectedPackage.None? || TotalFlavorCount(s) <= s.selectedPackage.value.flavorLimit
    ensures ExtraOf(s, catalog) == ExtraBalangs(0, None, 0)
  {
  }

  /** A catalogue without the overflow add-on degrades silently to no extra
      charge, however far the flavours exceed the limit. */
  lemma NoExtraWithoutOverflowAddon(s: CartState, catalog: seq<Addon>)
    requires forall i :: 0 <= i < |catalog| ==> catalog[i].name != OverflowAddonName
    ensures ExtraOf(s, catalog) == ExtraBalangs(0, None, 0)
  {
  }

  /** Over the limit with the overflow add-on present, the extra count is the
      excess over the limit and the cost is that excess at the add-on's price. */
  lemma ExtraBeyondLimit(s: CartState, catalog: seq<Addon>, k: nat)
    requires s.selectedPackage.Some? && TotalFlavorCount(s) > s.selectedPackage.value.flavorLimit
    requires k < |catalog| && catalog[k].name == OverflowAddonName
    requires forall j :: 0 <= j < k ==> catalog[j].name != OverflowAddonName
    ensures ExtraOf(s, catalog).count == TotalFlavorCount(s) - s.selectedPackage.value.flavorLimit > 0
    ensures ExtraOf(s, catalog).addon == Some(catalog[k])
    ensures ExtraOf(s, catalog).cost == ExtraOf(s, catalog).count * catalog[k].price
  {
    var r := OverflowAddon(catalog);
    var m :| 0 <= m < |catalog| && catalog[m] == r.value &&
      forall j :: 0 <= j < m ==> catalog[j].name != OverflowAddonName;
    assert catalog[m].name == OverflowAddonName;
    assert m == k;
  }

  /** Adding one drink past the limit adds exactly one extra balang at the
      overflow add-on's price; at or under the limit it adds nothing. */
  lemma AddItemExtraCost(s: CartState, drink: FlavorChoice, catalog: seq<Addon>)
    requires Lines.UniqueIds(s.items)
    requires s.selectedPackage.Some? && OverflowAddon(catalog).Some?
    ensures TotalFlavorCount(AddItem(s, drink)) == TotalFlavorCount(s) + 1
    ensures ExtraOf(AddItem(s, drink), catalog).cost ==
      ExtraOf(s, catalog).cost +
      (if TotalFlavorCount(s) >= s.selectedPackage.value.flavorLimit then OverflowAddon(catalog).value.price else 0)
  {
    Lines.TotalAfterAdd(s.items, drink.id, drink);
    assert AddItem(s, drink).selectedPackage == s.selectedPackage;
    ExtraStep(s.selectedPackage.value, TotalFlavorCount(s), catalog);
  }

  /** One more balang costs one more overflow unit once the limit is reached. */
  lemma ExtraStep(pkg: Package, n: int, catalog: seq<Addon>)
    requires OverflowAddon(catalog).Some?
    ensures Extra(Some(pkg), n + 1, catalog).cost ==
      Extra(Some(pkg), n, catalog).cost + (if n >= pkg.flavorLimit then OverflowAddon(catalog).value.price else 0)
  {
    var p := OverflowAddon(catalog).value.price;
    var e := n - pkg.flavorLimit;
    if e >= 0 {
      assert Extra(Some(pkg), n + 1, catalog).cost == (e + 1) * p;
      assert Extra(Some(pkg), n, catalog).cost == e * p;
      assert (e + 1) * p == e * p + p;
    }
  }

  // ---------------------------------------------------------------------------
  // Readiness
  // ---------------------------------------------------------------------------

  /** Charging extra balangs implies the booking is ready. */
  lemma OverflowImpliesReady(s: CartState, catalog: seq<Addon>)
    ensures ExtraOf(s, catalog).count > 0 ==> IsBookingReady(s)
  {
  }

  /** Exactly at the limit the booking is ready and nothing extra is charged. */
  lemma ReadyAtLimit(s: CartState, catalog: seq<Addon>)
    requires s.selectedPackage.Some? && TotalFlavorCount(s) == s.selectedPackage.value.flavorLimit
    ensures IsBookingReady(s)
    ensures ExtraOf(s, catalog).count == 0 && ExtraOf(s, catalog).cost == 0
  {
  }

  /** One balang short of the limit, or no package at all, is not ready. */
  lemma NotReadyBelowLimit(s: CartState)
    requires s.selectedPackage.None? || TotalFlavorCount(s) < s.selectedPackage.value.flavorLimit
    ensures !IsBookingReady(s)
  {
  }

  /** With a schema-valid package (positive limit) a ready cart holds at least one drink line. */
  lemma ReadyNeedsFlavors(s: CartState)
    requires Valid(s)
    requires s.selectedPackage.Some? && ValidPackage(s.selectedPackage.value)
    ensures IsBookingReady(s) ==> |s.items| > 0
  {
    Lines.TotalAtLeastLength(s.items);
  }

  // ---------------------------------------------------------------------------
  // Final total
  // ---------------------------------------------------------------------------

  lemma {:induction false} ManualCostAppend(a: seq<AddonItem>, b: seq<AddonItem>)
    ensures ManualAddonsCost(a + b) == ManualAddonsCost(a) + ManualAddonsCost(b)
  {
    if |a| == 0 {
      assert a + b == b;
    } else {
      assert (a + b)[1..] == a[1..] + b;
      ManualCostAppend(a[1..], b);
    }
  }

  lemma ManualCostSplit(lines: seq<AddonItem>, k: nat)
    requires k < |lines|
    ensures ManualAddonsCost(lines) ==
      ManualAddonsCost(lines[..k]) + LineCost(lines[k]) + ManualAddonsCost(lines[k + 1..])
  {
    assert lines == lines[..k] + ([lines[k]] + lines[k + 1..]);
    ManualCostAppend(lines[..k], [lines[k]] + lines[k + 1..]);
    assert ([lines[k]] + lines[k + 1..])[1..] == lines[k + 1..];
  }

  /** Raising one line's quantity by `delta` moves the add-on cost by `delta` unit prices. */
  lemma ManualCostAt(lines: seq<AddonItem>, k: nat, delta: int)
    requires k < |lines|
    ensures ManualAddonsCost(lines[k := lines[k].(quantity := lines[k].quantity + delta)]) ==
      ManualAddonsCost(lines) + delta * lines[k].entry.price
  {
    var l := lines[k];
    var moved := lines[k := l.(quantity := l.quantity + delta)];
    ManualCostSplit(lines, k);
    ManualCostSplit(moved, k);
    assert moved[..k] == lines[..k];
    assert moved[k + 1..] == lines[k + 1..];
  }

  /** Dropping line `k` lowers the add-on cost by that line's cost. */
  lemma ManualCostDrop(lines: seq<AddonItem>, k: nat)
    requires k < |lines|
    ensures ManualAddonsCost(lines[..k] + lines[k + 1..]) == ManualAddonsCost(lines) - LineCost(lines[k])
  {
    ManualCostSplit(lines, k);
    ManualCostAppend(lines[..k], lines[k + 1..]);
  }

  /** The add-on cost of the lines after adding `addon` is higher by its price. */
  lemma ManualCostAfterAdd(lines: seq<AddonItem>, addon: Addon)
    requires Lines.UniqueIds(lines)
    requires forall i :: 0 <= i < |lines| && lines[i].id == addon.id ==> lines[i].entry == addon
    ensures ManualAddonsCost(Lines.Add(lines, addon.id, addon)) == ManualAddonsCost(lines) + addon.price
  {
    var idx := Lines.IndexOf(lines, addon.id);
    if idx.Some? {
      var k := idx.value;
      var bumped := lines[k := lines[k].(quantity := lines[k].quantity + 1)];
      assert Lines.Add(lines, addon.id, addon) == bumped by {
        Lines.AddPresent(lines, addon.id, addon, k);
      }
      assert lines[k].entry == addon;
      ManualCostAt(lines, k, 1);
    } else {
      ManualCostAppend(lines, [Lines.Line(addon.id, addon, 1)]);
    }
  }

  /** The add-on cost of the lines after removing `id` is lower by the price
      of that line's entry, and unchanged when no line carries `id`. */
  lemma ManualCostAfterRemove(lines: seq<AddonItem>, id: string)
    requires Lines.Valid(lines)
    ensures ManualAddonsCost(Lines.Remove(lines, id)) == ManualAddonsCost(lines) -
      (if Lines.Has(lines, id) then Lines.Find(lines, id).value.entry.price else 0)
  {
    var idx := Lines.IndexOf(lines, id);
    if idx.Some? {
      var k := idx.value;
      assert Lines.Find(lines, id).value == lines[k];
      if lines[k].quantity > 1 {
        RemoveCostDecrement(lines, id, k);
      } else {
        RemoveCostDelete(lines, id, k);
      }
    }
  }

  lemma RemoveCostDecrement(lines: seq<AddonItem>, id: string, k: nat)
    requires Lines.UniqueIds(lines)
    requires k < |lines| && lines[k].id == id && lines[k].quantity > 1
    ensures ManualAddonsCost(Lines.Remove(lines, id)) == ManualAddonsCost(lines) - lines[k].entry.price
  {
    Lines.RemoveDecrements(lines, id, k);
    ManualCostAt(lines, k, -1);
  }

  lemma RemoveCostDelete(lines: seq<AddonItem>, id: string, k: nat)
    requires Lines.UniqueIds(lines)
    requires k < |lines| && lines[k].id == id && lines[k].quantity == 1
    ensures ManualAddonsCost(Lines.Remove(lines, id)) == ManualAddonsCost(lines) - lines[k].entry.price
  {
    Lines.RemoveDeletes(lines, id, k);
    ManualCostDrop(lines, k);
  }

  /** Adding an add-on raises the final total by that add-on's price, provided
      any line already held for its id was made from the same catalogue entry. */
  lemma AddAddonRaisesTotal(s: CartState, addon: Addon, catalog: seq<Addon>)
    requires Lines.UniqueIds(s.selectedAddons)
    requires forall i :: 0 <= i < |s.selectedAddons| && s.selectedAddons[i].id == addon.id ==>
      s.selectedAddons[i].entry == addon
    ensures FinalTotalCost(AddAddon(s, addon), catalog) == FinalTotalCost(s, catalog) + addon.price
  {
    ManualCostAfterAdd(s.selectedAddons, addon);
    assert ExtraOf(AddAddon(s, addon), catalog) == ExtraOf(s, catalog);
  }

  /** Removing an add-on lowers the final total by the price of its line's
      entry, and an add-on not selected changes nothing. */
  lemma RemoveAddonLowersTotal(s: CartState, addonId: string, catalog: seq<Addon>)
    requires Lines.Valid(s.selectedAddons)
    ensures FinalTotalCost(RemoveAddon(s, addonId), catalog) == FinalTotalCost(s, catalog) -
      (if Lines.Has(s.selectedAddons, addonId)
       then Lines.Find(s.selectedAddons, addonId).value.entry.price else 0)
  {
    ManualCostAfterRemove(s.selectedAddons, addonId);
    assert ExtraOf(RemoveAddon(s, addonId), catalog) == ExtraOf(s, catalog);
  }

  /** A manually selected overflow add-on is charged on top of the automatic
      extra balangs, not merged with them: the total carries the add-on's
      price once per manual unit and once per extra balang. */
  lemma OverflowChargedTwice(s: CartState, catalog: seq<Addon>, k: nat)
    requires Lines.UniqueIds(s.selectedAddons)
    requires OverflowAddon(catalog).Some?
    requires k < |s.selectedAddons| && s.selectedAddons[k].entry == OverflowAddon(catalog).value
    requires s.selectedPackage.Some? && TotalFlavorCount(s) > s.selectedPackage.value.flavorLimit
    ensures FinalTotalCost(s, catalog) ==
      PackageCost(s.selectedPackage) +
      ManualAddonsCost(Lines.Without(s.selectedAddons, s.selectedAddons[k].id)) +
      (s.selectedAddons[k].quantity + ExtraOf(s, catalog).count) * OverflowAddon(catalog).value.price
  {
    var lines := s.selectedAddons;
    var q := lines[k].quantity;
    var c := ExtraOf(s, catalog).count;
    var p := OverflowAddon(catalog).value.price;
    Lines.WithoutAt(lines, lines[k].id, k);
    ManualCostDrop(lines, k);
    assert LineCost(lines[k]) == q * p;
    assert ExtraOf(s, catalog).cost == c * p;
    assert (q + c) * p == q * p + c * p;
  }

  /** The worked example: a 5-balang package at 200.00 with 7 balangs chosen,
      one manual add-on at 20.00 taken twice, and the overflow add-on at
      50.00 in the catalogue, comes to 2 extra balangs, 100.00 extra and
      340.00 in total; dropping the overflow add-on from the catalogue drops
      the extra charge to 0. */
  lemma WorkedExample()
    ensures var pkg := Package("p", "Package Option 1", 20000, 5, "", "");
            var balang := Addon("b", OverflowAddonName, 5000, true);
            var cups := Addon("c", "Cups Upgrade", 2000, true);
            var items := [Lines.Line("d", FlavorChoice("d", "Bandung", 1000), 7)];
            var s := CartState(items, Some(pkg), [Lines.Line("c", cups, 2)]);
            && ExtraOf(s, [cups, balang]) == ExtraBalangs(2, Some(balang), 10000)
            && FinalTotalCost(s, [cups, balang]) == 34000
            && ExtraOf(s, [cups]) == ExtraBalangs(0, None, 0)
  {
    var pkg := Package("p", "Package Option 1", 20000, 5, "", "");
    var balang := Addon("b", OverflowAddonName, 5000, true);
    var cups := Addon("c", "Cups Upgrade", 2000, true);
    var items := [Lines.Line("d", FlavorChoice("d", "Bandung", 1000), 7)];
    var s := CartState(items, Some(pkg), [Lines.Line("c", cups, 2)]);
    assert items[1..] == [];
    assert TotalFlavorCount(s) == 7;
    assert "Cups Upgrade" != OverflowAddonName by {
      assert "Cups Upgrade"[0] != OverflowAddonName[0];
    }
    assert [cups, balang][1..] == [balang];
    assert FindByName([balang], OverflowAddonName) == Some(balang);
    assert OverflowAddon([cups, balang]) == Some(balang);
    assert OverflowAddon([cups]) == None;
    assert s.selectedAddons[1..] == [];
    assert ManualAddonsCost(s.selectedAddons) == 4000;
  }
}
