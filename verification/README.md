# Balang storefront: cart, pricing and booking in Dafny

This project models the client-side core of a storefront that sells beverage packages for events. A customer picks drink flavours ("balangs") from a menu. They then choose one event package and any add-ons, and submit the order.

The core has four parts:

- **Cart store.** It keeps drink lines, at most one package, and add-on lines. Lines merge by id: adding an id that is already present raises its quantity, and anything else appends a line with quantity 1. Removing lowers a quantity above 1 and otherwise drops the line.
- **Event builder pricing.** This covers the total flavour count and the extra balangs charged beyond the package's flavour limit. Extra balangs are priced through the add-on named exactly `Additional 1 x 23L Balang`. It also covers the final total and the readiness to book.
- **Booking.** "Proceed to Book" builds the order payload, posts it, and turns the reply into a success or error status. The same page holds the add-on checkbox and stepper controls and package selection by id.
- **Menu page and drink card.** The menu groups drinks by category and shows the floating cart badge. Each drink card picks tag colours and chooses between its add button and its stepper.

Every operation is a pure function over immutable values. Prices are integer cents.

Files, one module each:

- `common.dfy` (`Common`): `Option`, `Result`, first-match search, `Max`.
- `catalog.dfy` (`Catalog`): drinks, packages, add-ons, and the package schema's validation rule as a predicate (`ValidPackage`).
- `lines.dfy` (`Lines`): the merge-by-id line list that the store keeps twice, once for drinks and once for add-ons.
- `cart_store.dfy` (`CartStore`): the store's state and its five actions.
- `pricing.dfy` (`Pricing`): flavour count, extra balangs, final total, readiness.
- `booking.dfy` (`Booking`): package selection, add-on controls, order payload, submission outcome.
- `menu.dfy` (`Menu`): category grouping and the cart button.
- `drink_card.dfy` (`DrinkCard`): tag colours and the card's quantity control.

The invariant "one line per id, every quantity at least 1" is `Lines.Valid`. Several properties hold only under it, and `CartStore.ReachableIsValid` shows that every run of store actions keeps it.

## Model

| member | source | states |
|---|---|---|
| Lines.Find | src/store/cartStore.ts:54 | the first line carrying the id; absent exactly when no line carries it |
| Lines.QuantityOf | src/app/build-event/page.tsx:36-37 | the quantity a page shows for an id: 0 when no line carries it, at least 1 when one does and all quantities are positive |
| Lines.Add | src/store/cartStore.ts:53-59 | the added id is present afterwards; an absent id is appended as one line of quantity 1 behind the unchanged lines; a present id keeps the length |
| Lines.Remove | src/store/cartStore.ts:60-66 | removing an id no line carries leaves the lines unchanged |
| Lines.Without | src/store/cartStore.ts:65 | the filter leaves no line with the id, and is the identity when there was none |
| Lines.Adjust | src/store/cartStore.ts:56 | definition of the `map` that shifts the quantity of every line carrying the id (also lines 63, 75, 82); `Lines.AddPresent`, `Lines.RemoveDecrements` and `Lines.QuantityAfterAdd` state its effect |
| Lines.AddPresent | src/store/cartStore.ts:54-56 | with unique ids, adding a present id raises exactly that line's quantity by 1; all other lines and their order are unchanged |
| Lines.QuantityAfterAdd | src/store/cartStore.ts:53-59 | adding raises the quantity shown for that id by exactly 1 and leaves every other id's quantity alone, with no invariant needed |
| Lines.AddPreservesValid | src/store/cartStore.ts:53-59 | adding keeps one line per id and all quantities at least 1 |
| Lines.WithoutAt | src/store/cartStore.ts:65 | with unique ids, the filter splices out exactly the one matching line and keeps the rest in order |
| Lines.RemoveDecrements | src/store/cartStore.ts:62-63 | removing an id whose quantity is above 1 lowers exactly that line by 1 |
| Lines.RemoveDeletes | src/store/cartStore.ts:65 | removing an id whose quantity is 1 or less deletes its line and keeps the others in order |
| Lines.QuantityAfterRemove | src/store/cartStore.ts:60-66 | under the invariant, removing lowers that id's quantity by 1, floored at 0, and leaves other ids' quantities alone |
| Lines.RemovePreservesValid | src/store/cartStore.ts:60-66 | removing keeps one line per id and all quantities at least 1 |
| Lines.RemoveAfterAdd | src/store/cartStore.ts:53-66 | under the invariant, removing an id right after adding it restores the original sequence exactly |
| Lines.TotalAfterAdd | src/store/cartStore.ts:53-59 | with unique ids, adding raises the sum of quantities by exactly 1 |
| Lines.TotalAfterRemove | src/store/cartStore.ts:60-66 | under the invariant, removing lowers the sum by 1 when the id is present and leaves it unchanged otherwise |
| Lines.TotalAtLeastLength | src/app/page.tsx:21-23 | with positive quantities the sum is at least the number of lines, so it is 0 exactly when there are no lines |
| Lines.TotalQuantity | src/app/page.tsx:22 | definition of the quantity-sum `reduce` (also src/app/build-event/page.tsx:67); `Lines.TotalAfterAdd`, `Lines.TotalAfterRemove` and `Lines.TotalAtLeastLength` state its properties |
| CartStore.AddItem | src/store/cartStore.ts:53-59 | the drink's quantity goes up by 1; every other drink's quantity, the package and the add-ons are unchanged |
| CartStore.RemoveItem | src/store/cartStore.ts:60-66 | an absent drink is a no-op; under the invariant the drink's quantity drops by 1, floored at 0; package and add-ons are unchanged |
| CartStore.SelectPackage | src/store/cartStore.ts:69 | the package is replaced wholesale, or cleared by `None`; items and add-ons are untouched |
| CartStore.AddAddon | src/store/cartStore.ts:72-78 | the add-on's quantity goes up by 1; other add-ons, items and package are unchanged |
| CartStore.RemoveAddon | src/store/cartStore.ts:79-85 | an absent add-on is a no-op; under the invariant the quantity drops by 1, floored at 0; items and package are unchanged |
| CartStore.ActionPreservesValid | src/store/cartStore.ts:53-85 | each of the five actions keeps the store's invariant |
| CartStore.ReachableIsValid | src/store/cartStore.ts:46-86 | the empty initial state is valid, and any run of actions from a valid state ends valid |
| CartStore.RemoveItemUndoesAddItem | src/store/cartStore.ts:53-66 | `removeItem(d._id)` after `addItem(d)` gives back the same state |
| CartStore.RemoveAddonUndoesAddAddon | src/store/cartStore.ts:72-85 | `removeAddon(a._id)` after `addAddon(a)` gives back the same state |
| CartStore.AddonAccumulatesWithoutCap | src/store/cartStore.ts:72-78 | n additions of an add-on not yet selected give quantity n, whatever its `hasQuantity` flag |
| CartStore.Initial | src/store/cartStore.ts:47-50 | the empty starting state (no lines, no package); `CartStore.ReachableIsValid` states it satisfies the invariant |
| Pricing.FindByName | src/app/build-event/page.tsx:89 | the first catalogue add-on with exactly that name; absent exactly when no add-on has it |
| Pricing.TotalFlavorCount | src/app/build-event/page.tsx:67 | the sum of the drink lines' quantities: 0 for an empty cart and at least one per line when quantities are positive; `Pricing.AddItemExtraCost` and `Booking.PayloadConsistent` relate it to adding a drink and to the payload |
| Pricing.Extra | src/app/build-event/page.tsx:86-92 | the extra count is max(0, flavours minus limit) when a package and the overflow add-on exist, and 0 otherwise; the add-on is reported exactly when the count is positive; the cost is count times its price, else 0 |
| Pricing.NoExtraWithinLimit | src/app/build-event/page.tsx:87 | with no package, or at or under the limit, count, add-on and cost are 0/null/0 |
| Pricing.NoExtraWithoutOverflowAddon | src/app/build-event/page.tsx:89-90 | a catalogue without the named add-on gives 0/null/0 even above the limit |
| Pricing.ExtraBeyondLimit | src/app/build-event/page.tsx:88-91 | above the limit, with the named add-on first found at index k, the count is flavours minus limit (> 0), the add-on is catalogue[k], and the cost is count times its price |
| Pricing.AddItemExtraCost | src/app/build-event/page.tsx:67-92 | adding a drink raises the flavour count by 1; the extra cost rises by the overflow price exactly when the count was already at or above the limit |
| Pricing.OverflowImpliesReady | src/app/build-event/page.tsx:143 | a positive extra count implies the booking is ready |
| Pricing.ReadyAtLimit | src/app/build-event/page.tsx:143 | exactly at the flavour limit the booking is ready and nothing extra is charged |
| Pricing.NotReadyBelowLimit | src/app/build-event/page.tsx:143 | below the limit, or without a package, the booking is not ready |
| Pricing.ReadyNeedsFlavors | src/app/build-event/page.tsx:143 | with a schema-valid package (positive limit), a ready valid cart has at least one drink line |
| Pricing.ManualCostAfterAdd | src/app/build-event/page.tsx:96 | adding an add-on raises the summed price times quantity by its price, when any existing line for its id came from the same entry |
| Pricing.ManualCostAfterRemove | src/app/build-event/page.tsx:96 | under the invariant, removing lowers the summed cost by the line's unit price, or by 0 when absent |
| Pricing.AddAddonRaisesTotal | src/app/build-event/page.tsx:94-98 | the final total after `addAddon` is higher by exactly the add-on's price |
| Pricing.RemoveAddonLowersTotal | src/app/build-event/page.tsx:94-98 | the final total after `removeAddon` is lower by the selected line's unit price, or unchanged when it is absent |
| Pricing.OverflowChargedTwice | src/app/build-event/page.tsx:94-97 | a manually selected overflow add-on is charged for its manual units and again for every automatic extra balang, on top of the package and the other add-ons |
| Pricing.WorkedExample | src/app/build-event/page.tsx:86-98 | package 200.00 with limit 5, 7 balangs, overflow add-on 50.00, one 20.00 add-on twice: 2 extra, 100.00 extra, 340.00 total; with no overflow add-on the extra is 0 |
| Pricing.PackageCost | src/app/build-event/page.tsx:95 | definition (`selectedPackage?.price \|\| 0`); its role in the total is stated by `Pricing.OverflowChargedTwice` and `Booking.PayloadConsistent` |
| Pricing.ManualAddonsCost | src/app/build-event/page.tsx:96 | definition (sum of price times quantity); `Pricing.ManualCostAfterAdd`, `Pricing.ManualCostAfterRemove` and `Booking.PayloadConsistent` state how it moves and that the payload's add-on lines reproduce it |
| Pricing.FinalTotalCost | src/app/build-event/page.tsx:94-98 | definition; `Booking.PayloadConsistent`, `Pricing.AddAddonRaisesTotal`, `Pricing.RemoveAddonLowersTotal` and `Pricing.OverflowChargedTwice` state its properties |
| Pricing.IsBookingReady | src/app/build-event/page.tsx:143 | definition; `Pricing.ReadyAtLimit`, `Pricing.NotReadyBelowLimit` and `Pricing.OverflowImpliesReady` state both directions, equality counting as ready |
| Booking.HandlePackageSelect | src/app/build-event/page.tsx:100-103 | picks a catalogue package carrying the chosen id, or clears the selection exactly when none has it; flavours and add-ons are untouched |
| Booking.ControlFor | src/app/build-event/page.tsx:34-43 | a stepper exactly for `hasQuantity` add-ons, showing the cart quantity; otherwise a checkbox, checked exactly when the add-on is in the cart |
| Booking.CheckboxToggles | src/app/build-event/page.tsx:39-42 | clicking an on/off add-on's checkbox flips its quantity between 0 and 1 |
| Booking.OnCheckedChange | src/app/build-event/page.tsx:41 | checked adds one unit of the add-on; unchecked removes one, floored at 0 under the invariant; drinks and package are untouched |
| Booking.ClickCheckbox | src/app/build-event/page.tsx:41 | a click on an unchecked box gives the add-on quantity 1; on a checked box it removes one unit |
| Booking.StepperMoves | src/app/build-event/page.tsx:45-54 | plus raises the shown quantity by 1; minus lowers it by 1, floored at 0 |
| Booking.FlavorLines | src/app/build-event/page.tsx:113 | one (name, quantity) line per drink line, same length and order |
| Booking.AddonLines | src/app/build-event/page.tsx:114 | one (name, price, quantity) line per add-on line, same length and order |
| Booking.ExtraLineOf | src/app/build-event/page.tsx:115 | the auto-added line is present exactly when the extra count is positive and the overflow add-on was found, and then carries its name, the count and the cost |
| Booking.BuildOrderDetails | src/app/build-event/page.tsx:111-117 | the package summary is present iff a package is; the flavour and add-on lists are the store's lines mapped one to one, in the same order and length; the auto-added line is present iff the extra count is positive, and then names the overflow add-on with the excess as quantity and the extra cost as cost; the total is the final total |
| Booking.PayloadConsistent | src/app/build-event/page.tsx:111-117 | the payload's total equals package price plus its add-on lines plus its auto-added cost, all read from the payload itself; its flavour quantities add up to the cart's flavour count |
| Booking.Outcome | src/app/build-event/page.tsx:128-137 | the status is success exactly when the reply body's `success` is truthy, and error otherwise (unreadable reply included); never idle |
| Booking.ProceedToBook | src/app/build-event/page.tsx:106-141 | posts the snapshot payload; the cart and catalogue are unchanged; the status is the reply's outcome |
| Booking.SubmissionKeepsCartAndRetries | src/app/build-event/page.tsx:106-141 | after a submission, total and readiness are unchanged, and a later successful reply turns any status into success |
| Booking.SubmitsWhenNotReady | src/app/build-event/page.tsx:106-117 | submission does not re-check readiness: a cart without a package is posted with a null package and no auto-added line |
| Menu.CategoryOf | src/app/page.tsx:43 | a non-empty category is kept; a missing or empty one becomes `Uncategorized` |
| Menu.Categories | src/app/page.tsx:97 | the sections: distinct categories, exactly those of some drink |
| Menu.GroupByCategory | src/app/page.tsx:41-50 | the grouping as intended; no bucket is empty |
| Menu.GroupingIsFilter | src/app/page.tsx:41-50 | the buckets are exactly the categories present, and each bucket is precisely its category's drinks in menu order |
| Menu.DrinkLandsInItsBucket | src/app/page.tsx:43-47 | every drink is in the bucket of its own category, or `Uncategorized` |
| Menu.BucketsCoverMenu | src/app/page.tsx:41-50 | the bucket sizes add up to the number of drinks: none lost, none duplicated |
| Menu.GroupAsWritten | src/app/page.tsx:41-50 | the grouping on a plain object; whenever it succeeds it equals the intended grouping |
| Menu.GroupAsWrittenFailsOnInheritedKeys | src/app/page.tsx:44-47 | the plain-object grouping throws exactly when some drink's category names an inherited `Object.prototype` member |
| Menu.ConstructorCategoryCounterexample | src/app/page.tsx:44-47 | one drink in category "constructor" makes the written grouping throw, while the intended one files it under "constructor" |
| Menu.CartBadge | src/app/page.tsx:20-25 | hidden exactly when the summed quantity is 0; otherwise shows that sum |
| Menu.CartButtonHiddenIffEmpty | src/app/page.tsx:21-25 | in a valid cart the button is hidden exactly when there is no drink line, and its badge is at least the number of lines |
| Menu.CartButtonAfterAdd | src/app/page.tsx:21-25 | after adding a drink the button shows, with a count one higher |
| DrinkCard.FirstMatch | src/components/ui/drink-card.tsx:18-22 | the colour of the first rule whose keyword occurs, and gray when none does |
| DrinkCard.ToLower | src/components/ui/drink-card.tsx:17 | `toLowerCase` on ASCII letters, character by character with the length kept; `DrinkCard.ToLowerIdempotent` and `DrinkCard.TagColorCaseInsensitive` state its properties |
| DrinkCard.Contains | src/components/ui/drink-card.tsx:18-21 | definition of `includes`: the keyword occurs at some position of the tag; `DrinkCard.TagColorExamples` and `DrinkCard.GrayIffNoKeyword` use it |
| DrinkCard.GetTagColor | src/components/ui/drink-card.tsx:16-23 | definition (the if-chain); `DrinkCard.TagColorIsFirstMatch`, `DrinkCard.GrayIffNoKeyword` and `DrinkCard.TagColorCaseInsensitive` state its properties |
| DrinkCard.TagColorIsFirstMatch | src/components/ui/drink-card.tsx:16-23 | `getTagColor` is the priority list best seller/most popular, then new, then must try, then sugar-free, applied to the lower-cased tag |
| DrinkCard.GrayIffNoKeyword | src/components/ui/drink-card.tsx:22 | a tag is gray exactly when none of the keywords occurs in its lower-cased form |
| DrinkCard.ToLowerIdempotent | src/components/ui/drink-card.tsx:17 | lower-casing twice is lower-casing once |
| DrinkCard.TagColorCaseInsensitive | src/components/ui/drink-card.tsx:17 | a tag and its lower-case form get the same colour, and so do tags equal up to case |
| DrinkCard.TagColorExamples | src/components/ui/drink-card.tsx:18-22 | "Renewed" is green (substring match), "Best Seller" is yellow, "Spicy" is gray |
| DrinkCard.CardControlFor | src/components/ui/drink-card.tsx:78-92 | the add button exactly when the card's quantity is 0, otherwise a stepper showing it |
| DrinkCard.CardQuantity | src/components/ui/drink-card.tsx:38-39 | the matching cart line's quantity, or 0 when the drink has no line |
| DrinkCard.AddButtonIffNotInCart | src/components/ui/drink-card.tsx:38-39 | in a valid cart the add button shows exactly when the drink has no line; a stepper shows at least 1 |
| DrinkCard.CardAfterAdd | src/components/ui/drink-card.tsx:41-47 | pressing add makes the card a stepper one higher |
| DrinkCard.CardAfterRemove | src/components/ui/drink-card.tsx:49-51 | pressing minus lowers the stepper by 1, and from 1 the card returns to the add button |

## Left out

- The order endpoint `src/app/api/create-order/route.ts` is not modelled. Firestore persistence and the confirmation email are foreign I/O. Its reply enters the model as the `Booking.Reply` parameter: either an unreadable reply, when the fetch or the JSON parse threw, or a body with `success`, `orderId` and `error`.
- Catalogue fetching (`client.fetch`, `Promise.all`, `useEffect`) and the loading states are not modelled. The fetched catalogue is a parameter.
- The in-flight `isBooking` flag and the disabled state of the booking button are not modelled. Races between a pending submission and later cart edits are not modelled either; they are event-loop concurrency.
- React and zustand reactivity and `useMemo` are not modelled. Each derived value is a function called on the state.
- Rendering is not modelled: Tailwind classes, `toFixed(2)`, image URLs (`urlFor`), and the description and note texts. `getTagColor` returns class strings; the model returns the colour each string stands for.
- Floating point is not modelled. Prices are integer cents, so `NaN` and rounding do not arise, and `selectedPackage?.price || 0` is taken as "price, or 0 without a package".
- `Booking.Outcome`: JavaScript truthiness of `result.success` is reduced to a boolean.
- `Booking.Outcome`: the error status carries no message. The reply's `error` text (or `'Failed to create order.'`) is thrown and only logged (src/app/build-event/page.tsx:133, 136), and the page shows a fixed error text.
- `Booking.ProceedToBook`: the code first sets the status to `idle` and then settles it. A retry after an error therefore passes through `idle`, not straight into a submitting state; only the settled status is modelled.
- `DrinkCard.ToLower`: only ASCII letters are lower-cased. `toLowerCase` also folds other Unicode letters.
- `Menu.Categories`: this is insertion order, which `Object.entries` uses only for keys that are not integer-like. Numeric category names would be listed first, in numeric order; that is not modelled.
- `Lines.RemoveAfterAdd`, `Lines.QuantityAfterRemove`, `Lines.TotalAfterRemove` and the state-level lemmas built on them require the store invariant. `CartStore.ReachableIsValid` shows the store always keeps it. Without the invariant, `map` and `filter` touch every duplicate line.
- `Pricing.ManualCostAfterAdd` and `Pricing.AddAddonRaisesTotal` assume any stored line for the add-on's id was made from the same catalogue entry. Otherwise the merged line keeps its old price.
- The content schemas are used only as preconditions, through `Catalog.ValidPackage` (a positive price and a positive flavour limit), and only where a property needs them.

## Findings

| source | as written | input that shows it | evidently intended | confidence | as-written member | corrected member |
|---|---|---|---|---|---|---|
| src/app/page.tsx:44-47 | the accumulator is a plain `{}`. For a category named like an inherited `Object.prototype` member, `!acc[category]` is false, and `acc[category].push` throws a TypeError that breaks the menu page | one drink whose category is `"constructor"` (also `"toString"`, `"__proto__"`, …) | every drink is grouped under its category | low (the CMS radio list offers three fixed categories in the editor); not executed | Menu.GroupAsWritten (Menu.ConstructorCategoryCounterexample, Menu.GroupAsWrittenFailsOnInheritedKeys) | Menu.GroupByCategory (Menu.GroupingIsFilter, Menu.BucketsCoverMenu) |
