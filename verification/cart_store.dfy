/** The cart store: the selected drink lines, at most one package, and the
    selected add-on lines, with the five actions the pages call. Every action
    is a pure state transition here; the store's reactivity is left out. */
module CartStore {
  import opened Common
  import opened Catalog
  import Lines

  type CartItem = Lines.Line<FlavorChoice>
  type AddonItem = Lines.Line<Addon>

  datatype CartState = CartState(
    items: seq<CartItem>,
    selectedPackage: Option<Package>,
    selectedAddons: seq<AddonItem>)

  /** The state the store starts in: nothing selected. */
  const Initial := CartState([], None, [])

  /** One line per id and all quantities at least 1, for drinks and add-ons alike. */
  predicate Valid(s: CartState) {
    Lines.Valid(s.items) && Lines.Valid(s.selectedAddons)
  }

  /** `addItem`: merge the drink into its line by id, or append it with quantity 1. */
  function AddItem(s: CartState, drink: FlavorChoice): (r: CartState)
    ensures r.selectedPackage == s.selectedPackage && r.selectedAddons == s.selectedAddons
    ensures Lines.QuantityOf(r.items, drink.id) == Lines.QuantityOf(s.items, drink.id) + 1
    ensures forall other :: other != drink.id ==>
      Lines.QuantityOf(r.items, other) == Lines.QuantityOf(s.items, other)
  {
    var items := Lines.Add(s.items, drink.id, drink);
    Lines.QuantityAfterAdd(s.items, drink.id, drink, drink.id);
    assert forall other :: other != drink.id ==>
      Lines.QuantityOf(items, other) == Lines.QuantityOf(s.items, other) by {
      forall other | other != drink.id {
        Lines.QuantityAfterAdd(s.items, drink.id, drink, other);
      }
    }
    s.(items := items)
  }

  /** `removeItem`: lower the drink's quantity, or drop its line at quantity 1;
      an id not in the cart leaves the items as they are. */
  function RemoveItem(s: CartState, drinkId: string): (r: CartState)
    ensures r.selectedPackage == s.selectedPackage && r.selectedAddons == s.selectedAddons
    ensures !Lines.Has(s.items, drinkId) ==> r.items == s.items
    ensures Lines.Valid(s.items) ==>
      Lines.QuantityOf(r.items, drinkId) == Max(0, Lines.QuantityOf(s.items, drinkId) - 1)
  {
    var items := Lines.Remove(s.items, drinkId);
    assert Lines.Valid(s.items) ==>
      Lines.QuantityOf(items, drinkId) == Max(0, Lines.QuantityOf(s.items, drinkId) - 1) by {
      if Lines.Valid(s.items) { Lines.QuantityAfterRemove(s.items, drinkId, drinkId); }
    }
    s.(items := items)
  }

  /** `selectPackage`: replace the package wholesale; `None` clears it. */
  function SelectPackage(s: CartState, pkg: Option<Package>): (r: CartState)
    ensures r.selectedPackage == pkg
    ensures r.items == s.items && r.selectedAddons == s.selectedAddons
  {
    s.(selectedPackage := pkg)
  }

  /** `addAddon`: merge by id like `addItem`. The store does not look at
      `hasQuantity`, so an on/off add-on accumulates too. */
  function AddAddon(s: CartState, addon: Addon): (r: CartState)
    ensures r.items == s.items && r.selectedPackage == s.selectedPackage
    ensures Lines.QuantityOf(r.selectedAddons, addon.id) == Lines.QuantityOf(s.selectedAddons, addon.id) + 1
    ensures forall other :: other != addon.id ==>
      Lines.QuantityOf(r.selectedAddons, other) == Lines.QuantityOf(s.selectedAddons, other)
  {
    var addons := Lines.Add(s.selectedAddons, addon.id, addon);
    Lines.QuantityAfterAdd(s.selectedAddons, addon.id, addon, addon.id);
    assert forall other :: other != addon.id ==>
      Lines.QuantityOf(addons, other) == Lines.QuantityOf(s.selectedAddons, other) by {
      forall other | other != addon.id {
        Lines.QuantityAfterAdd(s.selectedAddons, addon.id, addon, other);
      }
    }
    s.(selectedAddons := addons)
  }

  /** `removeAddon`: decrement or drop, like `removeItem`. */
  function RemoveAddon(s: CartState, addonId: string): (r: CartState)
    ensures r.items == s.items && r.selectedPackage == s.selectedPackage
    ensures !Lines.Has(s.selectedAddons, addonId) ==> r.selectedAddons == s.selectedAddons
    ensures Lines.Valid(s.selectedAddons) ==>
      Lines.QuantityOf(r.selectedAddons, addonId) == Max(0, Lines.QuantityOf(s.selectedAddons, addonId) - 1)
  {
    var addons := Lines.Remove(s.selectedAddons, addonId);
    assert Lines.Valid(s.selectedAddons) ==>
      Lines.QuantityOf(addons, addonId) == Max(0, Lines.QuantityOf(s.selectedAddons, addonId) - 1) by {
      if Lines.Valid(s.selectedAddons) { Lines.QuantityAfterRemove(s.selectedAddons, addonId, addonId); }
    }
    s.(selectedAddons := addons)
  }

  /** The store's actions, as the pages issue them. */
  datatype Action =
    | AddItemAction(drink: FlavorChoice)
    | RemoveItemAction(drinkId: string)
    | SelectPackageAction(pkg: Option<Package>)
    | AddAddonAction(addon: Addon)
    | RemoveAddonAction(addonId: string)

  function Apply(s: CartState, a: Action): CartState {
    match a
    case AddItemAction(d) => AddItem(s, d)
    case RemoveItemAction(id) => RemoveItem(s, id)
    case SelectPackageAction(p) => SelectPackage(s, p)
    case AddAddonAction(addon) => AddAddon(s, addon)
    case RemoveAddonAction(id) => RemoveAddon(s, id)
  }

  /** The state after a run of actions, applied left to right. */
  function ApplyAll(s: CartState, actions: seq<Action>): CartState
    decreases |actions|
  {
    if |actions| == 0 then s else ApplyAll(Apply(s, actions[0]), actions[1..])
  }

  /** Every action keeps the store's invariant. */
  lemma ActionPreservesValid(s: CartState, a: Action)
    requires Valid(s)
    ensures Valid(Apply(s, a))
  {
    match a
    case AddItemAction(d) => Lines.AddPreservesValid(s.items, d.id, d);
    case RemoveItemAction(id) => Lines.RemovePreservesValid(s.items, id);
    case SelectPackageAction(p) =>
    case AddAddonAction(addon) => Lines.AddPreservesValid(s.selectedAddons, addon.id, addon);
    case RemoveAddonAction(id) => Lines.RemovePreservesValid(s.selectedAddons, id);
  }

  /** Any run of actions from a valid state, the empty initial state among
      them, ends in a valid state. */
  lemma {:induction false} ReachableIsValid(s: CartState, actions: seq<Action>)
    requires Valid(s)
    ensures Valid(Initial)
    ensures Valid(ApplyAll(s, actions))
    decreases |actions|
  {
    if |actions| > 0 {
      ActionPreservesValid(s, actions[0]);
      ReachableIsValid(Apply(s, actions[0]), actions[1..]);
    }
  }

  /** `removeItem(d.id)` right after `addItem(d)` gives back the same state. */
  lemma RemoveItemUndoesAddItem(s: CartState, drink: FlavorChoice)
    requires Lines.Valid(s.items)
    ensures RemoveItem(AddItem(s, drink), drink.id) == s
  {
    Lines.RemoveAfterAdd(s.items, drink.id, drink);
  }

  /** `removeAddon(a.id)` right after `addAddon(a)` gives back the same state. */
  lemma RemoveAddonUndoesAddAddon(s: CartState, addon: Addon)
    requires Lines.Valid(s.selectedAddons)
    ensures RemoveAddon(AddAddon(s, addon), addon.id) == s
  {
    Lines.RemoveAfterAdd(s.selectedAddons, addon.id, addon);
  }

  /** An add-on offered as an on/off toggle still accumulates when added
      repeatedly: after n additions to an empty selection its quantity is n. */
  lemma {:induction false} AddonAccumulatesWithoutCap(s: CartState, addon: Addon, n: nat)
    requires !Lines.Has(s.selectedAddons, addon.id)
    ensures Lines.QuantityOf(ApplyAll(s, seq(n, _ => AddAddonAction(addon))).selectedAddons, addon.id) == n
    decreases n
  {
    if n > 0 {
      var acts := seq(n, _ => AddAddonAction(addon));
      var before := seq(n - 1, _ => AddAddonAction(addon));
      AddonAccumulatesWithoutCap(s, addon, n - 1);
      ApplyAllSnoc(s, before, AddAddonAction(addon));
      assert acts == before + [AddAddonAction(addon)];
    }
  }

  lemma {:induction false} ApplyAllSnoc(s: CartState, actions: seq<Action>, a: Action)
    ensures ApplyAll(s, actions + [a]) == Apply(ApplyAll(s, actions), a)
    decreases |actions|
  {
    if |actions| == 0 {
      assert actions + [a] == [a];
    } else {
      assert (actions + [a])[1..] == actions[1..] + [a];
      ApplyAllSnoc(Apply(s, actions[0]), actions[1..], a);
    }
  }
}
