/** The event builder's actions around the cart: choosing a package by id,
    the add-on controls, and "Proceed to Book", which snapshots the cart into
    an order payload, posts it, and maps the reply to a booking status. The
    network exchange itself is a parameter: the reply is whatever the order
    endpoint sent back. */
module Booking {
  import opened Common
  import opened Catalog
  import Lines
  import opened CartStore
  import opened Pricing

  // ---------------------------------------------------------------------------
  // Package selection
  // ---------------------------------------------------------------------------

  /** `handlePackageSelect`: pick the first package with the radio button's
      id, or clear the selection when no package has it. */
  function HandlePackageSelect(s: CartState, packages: seq<Package>, packageId: string): (r: CartState)
    ensures r.items == s.items && r.selectedAddons == s.selectedAddons
    ensures r.selectedPackage.None? <==> forall i :: 0 <= i < |packages| ==> packages[i].id != packageId
    ensures r.selectedPackage.Some? ==> r.selectedPackage.value.id == packageId
    ensures r.selectedPackage.Some? ==> r.selectedPackage.value in packages
  {
    SelectPackage(s, FindFirst(packages, (p: Package) => p.id == packageId))
  }

  // ---------------------------------------------------------------------------
  // Add-on controls
  // ---------------------------------------------------------------------------

  /** An add-on offered as an on/off toggle shows a checkbox; one with
      `hasQuantity` shows a minus/plus stepper around its quantity. */
  datatype AddonControl = Checkbox(checked: bool) | Stepper(quantity: int)

  /** What `AddonController` renders for an add-on in the current cart. */
  function ControlFor(s: CartState, addon: Addon): (c: AddonControl)
    ensures c.Stepper? <==> addon.hasQuantity
    ensures c.Stepper? ==> c.quantity == Lines.QuantityOf(s.selectedAddons, addon.id)
    ensures c.Checkbox? && Lines.Positive(s.selectedAddons) ==>
      (c.checked <==> Lines.Has(s.selectedAddons, addon.id))
  {
    var quantity := Lines.QuantityOf(s.selectedAddons, addon.id);
    if !addon.hasQuantity then Checkbox(quantity > 0) else Stepper(quantity)
  }

  /** The checkbox's `onCheckedChange(checked)`: add when checked, remove otherwise. */
  function OnCheckedChange(s: CartState, addon: Addon, checked: bool): (r: CartState)
    ensures r.items == s.items && r.selectedPackage == s.selectedPackage
    ensures checked ==>
      Lines.QuantityOf(r.selectedAddons, addon.id) == Lines.QuantityOf(s.selectedAddons, addon.id) + 1
    ensures !checked && Lines.Valid(s.selectedAddons) ==>
      Lines.QuantityOf(r.selectedAddons, addon.id) == Max(0, Lines.QuantityOf(s.selectedAddons, addon.id) - 1)
  {
    if checked then AddAddon(s, addon) else RemoveAddon(s, addon.id)
  }

  /** A click on the checkbox reports the opposite of what it showed: an
      add-on not in the cart gets one unit, one in the cart loses one. */
  function ClickCheckbox(s: CartState, addon: Addon): (r: CartState)
    requires !addon.hasQuantity
    ensures r.items == s.items && r.selectedPackage == s.selectedPackage
    ensures !Lines.Has(s.selectedAddons, addon.id) ==> Lines.QuantityOf(r.selectedAddons, addon.id) == 1
    ensures Lines.Valid(s.selectedAddons) && Lines.Has(s.selectedAddons, addon.id) ==>
      Lines.QuantityOf(r.selectedAddons, addon.id) == Lines.QuantityOf(s.selectedAddons, addon.id) - 1
  {
    OnCheckedChange(s, addon, !ControlFor(s, addon).checked)
  }

  /** Clicking an on/off add-on's checkbox flips its quantity between 0 and
      1, so through the checkbox alone it never exceeds 1. */
  lemma CheckboxToggles(s: CartState, addon: Addon)
    requires Lines.Valid(s.selectedAddons)
    requires !addon.hasQuantity
    requires Lines.QuantityOf(s.selectedAddons, addon.id) <= 1
    ensures Lines.QuantityOf(ClickCheckbox(s, addon).selectedAddons, addon.id) ==
      1 - Lines.QuantityOf(s.selectedAddons, addon.id)
    ensures ClickCheckbox(s, addon).items == s.items
  {
  }

  /** The stepper's plus and minus buttons are `addAddon` and `removeAddon`:
      the quantity shown moves by one, and never below 0. */
  lemma StepperMoves(s: CartState, addon: Addon)
    requires Lines.Valid(s.selectedAddons)
    requires addon.hasQuantity
    ensures ControlFor(AddAddon(s, addon), addon).quantity == ControlFor(s, addon).quantity + 1
    ensures ControlFor(RemoveAddon(s, addon.id), addon).quantity == Max(0, ControlFor(s, addon).quantity - 1)
  {
  }

  // ---------------------------------------------------------------------------
  // The order payload
  // ---------------------------------------------------------------------------

  datatype PackageSummary = PackageSummary(name: string, price: int)
  datatype FlavorLine = FlavorLine(name: string, quantity: int)
  datatype AddonLine = AddonLine(name: string, price: int, quantity: int)
  datatype ExtraLine = ExtraLine(name: string, quantity: int, cost: int)

  /** The `orderDetails` object posted to the order endpoint. */
  datatype OrderDetails = OrderDetails(
    package: Option<PackageSummary>,
    flavors: seq<FlavorLine>,
    addons: seq<AddonLine>,
    autoAddedExtraBalangs: Option<ExtraLine>,
    totalCost: int)

  /** `selectedFlavors.map(f => ({name, quantity}))`. */
  function FlavorLines(items: seq<CartItem>): (r: seq<FlavorLine>)
    ensures |r| == |items|
    ensures forall i :: 0 <= i < |items| ==> r[i] == FlavorLine(items[i].entry.name, items[i].quantity)
  {
    if |items| == 0 then []
    else [FlavorLine(items[0].entry.name, items[0].quantity)] + FlavorLines(items[1..])
  }

  /** `selectedAddons.map(a => ({name, price, quantity}))`. */
  function AddonLines(lines: seq<AddonItem>): (r: seq<AddonLine>)
    ensures |r| == |lines|
    ensures forall i :: 0 <= i < |lines| ==>
      r[i] == AddonLine(lines[i].entry.name, lines[i].entry.price, lines[i].quantity)
  {
    if |lines| == 0 then []
    else [AddonLine(lines[0].entry.name, lines[0].entry.price, lines[0].quantity)] + AddonLines(lines[1..])
  }

  /** The auto-added line: present when extra balangs were counted and the
      overflow add-on was found. */
  function ExtraLineOf(e: ExtraBalangs): (r: Option<ExtraLine>)
    ensures r.Some? <==> e.count > 0 && e.addon.Some?
    ensures r.Some? ==> r.value.quantity == e.count && r.value.cost == e.cost && r.value.name == e.addon.value.name
  {
    if e.count > 0 && e.addon.Some? then Some(ExtraLine(e.addon.value.name, e.count, e.cost)) else None
  }

  /** The snapshot of the cart that "Proceed to Book" sends. */
  function BuildOrderDetails(s: CartState, catalog: seq<Addon>): (p: OrderDetails)
    ensures p.package.Some? <==> s.selectedPackage.Some?
    ensures p.package.Some? ==>
      p.package.value == PackageSummary(s.selectedPackage.value.name, s.selectedPackage.value.price)
    ensures |p.flavors| == |s.items| && |p.addons| == |s.selectedAddons|
    ensures p.flavors == FlavorLines(s.items) && p.addons == AddonLines(s.selectedAddons)
    ensures p.autoAddedExtraBalangs.Some? <==> ExtraOf(s, catalog).count > 0
    ensures p.autoAddedExtraBalangs.Some? ==>
      p.autoAddedExtraBalangs.value.name == OverflowAddonName &&
      p.autoAddedExtraBalangs.value.quantity == TotalFlavorCount(s) - s.selectedPackage.value.flavorLimit &&
      p.autoAddedExtraBalangs.value.cost == ExtraOf(s, catalog).cost
    ensures p.totalCost == FinalTotalCost(s, catalog)
  {
    var pkg := if s.selectedPackage.Some?
      then Some(PackageSummary(s.selectedPackage.value.name, s.selectedPackage.value.price))
      else None;
    OrderDetails(pkg, FlavorLines(s.items), AddonLines(s.selectedAddons),
                 ExtraLineOf(ExtraOf(s, catalog)), FinalTotalCost(s, catalog))
  }

  /** The total recomputed from the payload's own lines. */
  function PayloadTotal(p: OrderDetails): int {
    (if p.package.Some? then p.package.value.price else 0) +
    AddonLinesCost(p.addons) +
    (if p.autoAddedExtraBalangs.Some? then p.autoAddedExtraBalangs.value.cost else 0)
  }

  function AddonLinesCost(lines: seq<AddonLine>): int {
    if |lines| == 0 then 0 else lines[0].price * lines[0].quantity + AddonLinesCost(lines[1..])
  }

  /** The balangs listed in the payload's flavour lines. */
  function PayloadFlavorCount(flavors: seq<FlavorLine>): int {
    if |flavors| == 0 then 0 else flavors[0].quantity + PayloadFlavorCount(flavors[1..])
  }

  lemma {:induction false} AddonLinesCostMatches(lines: seq<AddonItem>)
    ensures AddonLinesCost(AddonLines(lines)) == ManualAddonsCost(lines)
  {
    if |lines| > 0 {
      assert AddonLines(lines)[1..] == AddonLines(lines[1..]);
      AddonLinesCostMatches(lines[1..]);
    }
  }

  lemma {:induction false} FlavorCountMatches(items: seq<CartItem>)
    ensures PayloadFlavorCount(FlavorLines(items)) == Lines.TotalQuantity(items)
  {
    if |items| > 0 {
      assert FlavorLines(items)[1..] == FlavorLines(items[1..]);
      FlavorCountMatches(items[1..]);
    }
  }

  /** The payload is self-consistent: its `totalCost` equals the package
      price plus its add-on lines plus its auto-added line, and its flavour
      lines add up to the cart's flavour count. */
  lemma PayloadConsistent(s: CartState, catalog: seq<Addon>)
    ensures PayloadTotal(BuildOrderDetails(s, catalog)) == BuildOrderDetails(s, catalog).totalCost
    ensures PayloadFlavorCount(BuildOrderDetails(s, catalog).flavors) == TotalFlavorCount(s)
  {
    AddonLinesCostMatches(s.selectedAddons);
    FlavorCountMatches(s.items);
  }

  // ---------------------------------------------------------------------------
  // Submitting
  // ---------------------------------------------------------------------------

  /** What `fetch` followed by `response.json()` produced: either nothing
      usable (the request or the JSON parse threw) or a body whose `success`
      field is taken for its truthiness. */
  datatype Reply =
    | Unreadable
    | Body(success: bool, orderId: Option<string>, error: Option<string>)

  datatype BookingStatus = Idle | Succeeded | Failed

  /** The booking page's own state next to the store: the fetched add-on
      catalogue and the booking status. */
  datatype BookingPage = BookingPage(cart: CartState, catalog: seq<Addon>, status: BookingStatus)

  datatype Submission = Submission(payload: OrderDetails, page: BookingPage)

  /** How the reply settles the status. */
  function Outcome(reply: Reply): (st: BookingStatus)
    ensures st != Idle
    ensures st == Succeeded <==> reply.Body? && reply.success
  {
    match reply
    case Body(success, _, _) => if success then Succeeded else Failed
    case Unreadable => Failed
  }

  /** `handleProceedToBook`: build the payload, post it, settle the status.
      It does not look at readiness and never touches the cart. */
  function ProceedToBook(page: BookingPage, reply: Reply): (r: Submission)
    ensures r.payload == BuildOrderDetails(page.cart, page.catalog)
    ensures r.page.cart == page.cart && r.page.catalog == page.catalog
    ensures r.page.status == Outcome(reply)
  {
    var payload := BuildOrderDetails(page.cart, page.catalog);
    Submission(payload, page.(status := Outcome(reply)))
  }

  /** A submission leaves the pricing of the page unchanged, and a later
      successful reply turns a failed booking into a successful one. */
  lemma SubmissionKeepsCartAndRetries(page: BookingPage, first: Reply, second: Reply)
    requires second.Body? && second.success
    ensures var after := ProceedToBook(page, first).page;
            && FinalTotalCost(after.cart, after.catalog) == FinalTotalCost(page.cart, page.catalog)
            && IsBookingReady(after.cart) == IsBookingReady(page.cart)
            && ProceedToBook(after, second).page.status == Succeeded
  {
  }

  /** The submission does not re-check readiness: a cart with no package is
      posted all the same, with a null package and no auto-added line. */
  lemma SubmitsWhenNotReady(page: BookingPage, reply: Reply)
    requires page.cart.selectedPackage.None?
    ensures !IsBookingReady(page.cart)
    ensures ProceedToBook(page, reply).payload.package.None?
    ensures ProceedToBook(page, reply).payload.autoAddedExtraBalangs.None?
  {
  }
}
