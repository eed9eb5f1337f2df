/** The catalogue entities the storefront fetches from the content store, and
    the validation rules the content schemas attach to them. The front-end
    never edits these values; it only reads them. */
module Catalog {
  import opened Common

  /** A drink flavour on the menu. `category` is `None` when the document has
      no category at all; the image reference is not modelled. Prices are in
      cents. */
  datatype Drink = Drink(
    id: string,
    name: string,
    pricePerBalang: int,
    category: Option<string>,
    tags: seq<string>)

  /** An event package: a base price that covers `flavorLimit` balangs. */
  datatype Package = Package(
    id: string,
    name: string,
    price: int,
    flavorLimit: int,
    description: string,
    note: string)

  /** An add-on. `hasQuantity` says whether the page offers a stepper (true)
      or an on/off checkbox (false); the query defaults a missing flag to
      false. */
  datatype Addon = Addon(id: string, name: string, price: int, hasQuantity: bool)

  /** What the menu hands to the cart when a flavour is added: the drink
      without its image, category and tags. */
  datatype FlavorChoice = FlavorChoice(id: string, name: string, pricePerBalang: int)

  function ChoiceOf(d: Drink): FlavorChoice {
    FlavorChoice(d.id, d.name, d.pricePerBalang)
  }

  /** The package schema: a positive price and a positive integer flavour limit. */
  predicate ValidPackage(p: Package) {
    p.price > 0 && p.flavorLimit > 0
  }
}
