/** The menu page: drinks grouped into one section per category, and the
    floating cart button with the number of balangs selected. */
module Menu {
  import opened Common
  import opened Catalog
  import Lines
  import CartStore

  /** The bucket for drinks without a usable category. */
  const Uncategorized := "Uncategorized"

  /** `drink.category || 'Uncategorized'`: a missing or empty category falls back. */
  function CategoryOf(d: Drink): (c: string)
    ensures c != ""
    ensures d.category.Some? && d.category.value != "" ==> c == d.category.value
    ensures d.category.None? || d.category.value == "" ==> c == Uncategorized
  {
    if d.category.Some? && d.category.value != "" then d.category.value else Uncategorized
  }

  /** The drinks of one category, in menu order: the reference a bucket is measured against. */
  function InCategory(drinks: seq<Drink>, c: string): (r: seq<Drink>)
    ensures |r| <= |drinks|
    ensures forall i :: 0 <= i < |r| ==> CategoryOf(r[i]) == c
  {
    if |drinks| == 0 then []
    else (if CategoryOf(drinks[0]) == c then [drinks[0]] else []) + InCategory(drinks[1..], c)
  }

  /** The categories in the order they first appear, which is the order
      `Object.entries` lists the sections in. */
  function Categories(drinks: seq<Drink>): (cs: seq<string>)
    ensures forall i, j :: 0 <= i < j < |cs| ==> cs[i] != cs[j]
    ensures forall c :: c in cs <==> exists i :: 0 <= i < |drinks| && CategoryOf(drinks[i]) == c
  {
    if |drinks| == 0 then []
    else
      var front := drinks[..|drinks| - 1];
      var prior := Categories(front);
      var c := CategoryOf(drinks[|drinks| - 1]);
      assert forall i :: 0 <= i < |front| ==> front[i] == drinks[i];
      if c in prior then prior else prior + [c]
  }

  /** `groupDrinksByCategory`: fold the drinks into a map from category to
      the drinks of that category, appending as it goes. */
  function GroupByCategory(drinks: seq<Drink>): (g: map<string, seq<Drink>>)
    ensures forall c :: c in g ==> g[c] != []
  {
    if |drinks| == 0 then map[]
    else
      var acc := GroupByCategory(drinks[..|drinks| - 1]);
      var d := drinks[|drinks| - 1];
      var c := CategoryOf(d);
      acc[c := (if c in acc then acc[c] else []) + [d]]
  }

  // ---------------------------------------------------------------------------
  // Grouping is a partition that keeps menu order
  // ---------------------------------------------------------------------------

  lemma {:induction false} InCategoryAppend(drinks: seq<Drink>, d: Drink, c: string)
    ensures InCategory(drinks + [d], c) == InCategory(drinks, c) + (if CategoryOf(d) == c then [d] else [])
  {
    if |drinks| == 0 {
      assert drinks + [d] == [d];
    } else {
      var head := if CategoryOf(drinks[0]) == c then [drinks[0]] else [];
      assert (drinks + [d])[0] == drinks[0];
      assert (drinks + [d])[1..] == drinks[1..] + [d];
      assert InCategory(drinks + [d], c) == head + InCategory(drinks[1..] + [d], c);
      InCategoryAppend(drinks[1..], d, c);
      assert InCategory(drinks, c) == head + InCategory(drinks[1..], c);
    }
  }

  lemma {:induction false} InCategoryEmpty(drinks: seq<Drink>, c: string)
    requires forall i :: 0 <= i < |drinks| ==> CategoryOf(drinks[i]) != c
    ensures InCategory(drinks, c) == []
  {
    if |drinks| > 0 {
      assert forall i :: 0 <= i < |drinks[1..]| ==> drinks[1..][i] == drinks[i + 1];
      InCategoryEmpty(drinks[1..], c);
    }
  }

  /** The buckets are exactly the categories present, and each bucket holds
      precisely the drinks of its category in their menu order. */
  lemma {:induction false} GroupingIsFilter(drinks: seq<Drink>)
    ensures forall c :: c in GroupByCategory(drinks) <==> c in Categories(drinks)
    ensures forall c :: c in GroupByCategory(drinks) ==> GroupByCategory(drinks)[c] == InCategory(drinks, c)
  {
    if |drinks| > 0 {
      var front := drinks[..|drinks| - 1];
      var d := drinks[|drinks| - 1];
      assert drinks == front + [d];
      GroupingIsFilter(front);
      forall c | c in GroupByCategory(drinks)
        ensures GroupByCategory(drinks)[c] == InCategory(drinks, c)
      {
        InCategoryAppend(front, d, c);
        if c == CategoryOf(d) && c !in GroupByCategory(front) {
          assert forall i :: 0 <= i < |front| ==> CategoryOf(front[i]) != c by {
            forall i | 0 <= i < |front| ensures CategoryOf(front[i]) != c {
              assert front[i] == drinks[i];
            }
          }
          InCategoryEmpty(front, c);
        }
      }
    }
  }

  /** Every drink lands in the bucket of its own category, or in
      `Uncategorized` when it has none. */
  lemma DrinkLandsInItsBucket(drinks: seq<Drink>, i: nat)
    requires i < |drinks|
    ensures CategoryOf(drinks[i]) in GroupByCategory(drinks)
    ensures drinks[i] in GroupByCategory(drinks)[CategoryOf(drinks[i])]
  {
    GroupingIsFilter(drinks);
    InCategoryHas(drinks, i);
  }

  lemma {:induction false} InCategoryHas(drinks: seq<Drink>, i: nat)
    requires i < |drinks|
    ensures drinks[i] in InCategory(drinks, CategoryOf(drinks[i]))
  {
    if i > 0 {
      assert drinks[1..][i - 1] == drinks[i];
      InCategoryHas(drinks[1..], i - 1);
    }
  }

  /** Sum of the sizes of the buckets named in `cs`. */
  function BucketSizes(cs: seq<string>, drinks: seq<Drink>): nat {
    if |cs| == 0 then 0
    else BucketSizes(cs[..|cs| - 1], drinks) + |InCategory(drinks, cs[|cs| - 1])|
  }

  lemma {:induction false} BucketSizesAppendDrink(cs: seq<string>, drinks: seq<Drink>, d: Drink)
    requires forall i, j :: 0 <= i < j < |cs| ==> cs[i] != cs[j]
    ensures BucketSizes(cs, drinks + [d]) == BucketSizes(cs, drinks) + (if CategoryOf(d) in cs then 1 else 0)
  {
    if |cs| > 0 {
      var init := cs[..|cs| - 1];
      var last := cs[|cs| - 1];
      DistinctParts(cs, init);
      BucketSizesAppendDrink(init, drinks, d);
      InCategoryAppend(drinks, d, last);
      assert CategoryOf(d) in cs <==> CategoryOf(d) in init || CategoryOf(d) == last by {
        assert cs == init + [last];
      }
    }
  }

  /** Dropping the last of distinct strings leaves them distinct, and the
      last one is not among the rest. */
  lemma DistinctParts(cs: seq<string>, init: seq<string>)
    requires |cs| > 0 && init == cs[..|cs| - 1]
    requires forall i, j :: 0 <= i < j < |cs| ==> cs[i] != cs[j]
    ensures forall i, j :: 0 <= i < j < |init| ==> init[i] != init[j]
    ensures cs[|cs| - 1] !in init
  {
    assert forall i :: 0 <= i < |init| ==> init[i] == cs[i];
  }

  /** No drink is lost or duplicated: the section sizes add up to the
      number of drinks on the menu. */
  lemma {:induction false} BucketsCoverMenu(drinks: seq<Drink>)
    ensures BucketSizes(Categories(drinks), drinks) == |drinks|
  {
    if |drinks| > 0 {
      var front := drinks[..|drinks| - 1];
      var d := drinks[|drinks| - 1];
      var c := CategoryOf(d);
      var prior := Categories(front);
      assert drinks == front + [d];
      BucketsCoverMenu(front);
      BucketSizesAppendDrink(prior, front, d);
      if c !in prior {
        var cs := prior + [c];
        assert cs[..|cs| - 1] == prior;
        assert forall i :: 0 <= i < |front| ==> CategoryOf(front[i]) != c;
        InCategoryEmpty(front, c);
        InCategoryAppend(front, d, c);
      }
    }
  }

  // ---------------------------------------------------------------------------
  // The grouping as written, on a plain JavaScript object
  // ---------------------------------------------------------------------------

  /** Keys every plain object `{}` inherits from `Object.prototype`; reading
      any of them yields a truthy value that is not an array. */
  const InheritedKeys: set<string> := {
    "constructor", "hasOwnProperty", "isPrototypeOf", "propertyIsEnumerable",
    "toLocaleString", "toString", "valueOf", "__proto__",
    "__defineGetter__", "__defineSetter__", "__lookupGetter__", "__lookupSetter__"
  }

  /** `groupDrinksByCategory` as written: the accumulator is `{}`, so for a
      category named like an inherited member `!acc[category]` is false and
      `acc[category].push(drink)` throws a TypeError. */
  function GroupAsWritten(drinks: seq<Drink>): (r: Result<map<string, seq<Drink>>>)
    ensures r.Success? ==> r.value == GroupByCategory(drinks)
  {
    if |drinks| == 0 then Success(map[])
    else
      match GroupAsWritten(drinks[..|drinks| - 1])
      case Failure(e) => Failure(e)
      case Success(acc) =>
        var d := drinks[|drinks| - 1];
        var c := CategoryOf(d);
        if c !in acc && c in InheritedKeys then Failure("TypeError: acc[category].push is not a function")
        else Success(acc[c := (if c in acc then acc[c] else []) + [d]])
  }

  /** The grouping as written fails exactly when some drink's category names
      an inherited member; otherwise it agrees with the intended grouping. */
  lemma {:induction false} GroupAsWrittenFailsOnInheritedKeys(drinks: seq<Drink>)
    ensures GroupAsWritten(drinks).Failure? <==>
      exists i :: 0 <= i < |drinks| && CategoryOf(drinks[i]) in InheritedKeys
  {
    if |drinks| > 0 {
      var front := drinks[..|drinks| - 1];
      var d := drinks[|drinks| - 1];
      GroupAsWrittenFailsOnInheritedKeys(front);
      assert forall i :: 0 <= i < |front| ==> front[i] == drinks[i];
      if GroupAsWritten(front).Success? {
        GroupingIsFilter(front);
        if CategoryOf(d) in InheritedKeys {
          assert CategoryOf(d) !in Categories(front);
        }
      } else {
        var i :| 0 <= i < |front| && CategoryOf(front[i]) in InheritedKeys;
        assert CategoryOf(drinks[i]) in InheritedKeys;
      }
    }
  }

  /** A single drink in a category called "constructor" breaks the menu page
      as written, while the intended grouping files it under its category. */
  lemma ConstructorCategoryCounterexample()
    ensures var d := Drink("x", "Teh Tarik", 1200, Some("constructor"), []);
            && GroupAsWritten([d]).Failure?
            && GroupByCategory([d]) == map["constructor" := [d]]
  {
    var d := Drink("x", "Teh Tarik", 1200, Some("constructor"), []);
    assert [d][..0] == [];
    assert CategoryOf(d) == "constructor";
    assert GroupByCategory([d]) == map[][CategoryOf(d) := [] + [d]];
    assert [] + [d] == [d];
  }

  // ---------------------------------------------------------------------------
  // Cart button
  // ---------------------------------------------------------------------------

  /** `CartButton`: hidden (`None`) when no balang is selected, otherwise a
      badge with the number of balangs. */
  function CartBadge(s: CartStore.CartState): (b: Option<int>)
    ensures b.Some? ==> b.value == Lines.TotalQuantity(s.items) && b.value != 0
    ensures b.None? ==> Lines.TotalQuantity(s.items) == 0
  {
    var totalItems := Lines.TotalQuantity(s.items);
    if totalItems == 0 then None else Some(totalItems)
  }

  /** In any valid cart the button is hidden exactly when the cart holds no
      drink line, and its badge counts at least one balang per line. */
  lemma CartButtonHiddenIffEmpty(s: CartStore.CartState)
    requires CartStore.Valid(s)
    ensures CartBadge(s).None? <==> |s.items| == 0
    ensures CartBadge(s).Some? ==> CartBadge(s).value >= |s.items|
  {
    Lines.TotalAtLeastLength(s.items);
  }

  /** Adding a drink from the menu makes the button appear and raises its badge by one. */
  lemma CartButtonAfterAdd(s: CartStore.CartState, d: Drink)
    requires CartStore.Valid(s)
    ensures CartBadge(CartStore.AddItem(s, ChoiceOf(d))).Some?
    ensures CartBadge(CartStore.AddItem(s, ChoiceOf(d))).value == Lines.TotalQuantity(s.items) + 1
  {
    Lines.TotalAfterAdd(s.items, d.id, ChoiceOf(d));
    Lines.TotalAtLeastLength(s.items);
  }
}
