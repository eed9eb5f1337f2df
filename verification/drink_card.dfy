/** The drink card on the menu: the colour of each tag badge, and the
    quantity and control the card shows for its drink. */
module DrinkCard {
  import opened Catalog
  import Lines
  import CartStore

  /** The badge colours `getTagColor` chooses between (each stands for the
      Tailwind class string the source returns). */
  datatype TagColor = Yellow | Green | Purple | Blue | Gray

  /** `toLowerCase` on one character, for the ASCII letters. */
  function LowerChar(c: char): char {
    if 'A' <= c <= 'Z' then (c as int + 32) as char else c
  }

  function ToLower(s: string): (r: string)
    ensures |r| == |s|
    ensures forall i :: 0 <= i < |s| ==> r[i] == LowerChar(s[i])
  {
    seq(|s|, i requires 0 <= i < |s| => LowerChar(s[i]))
  }

  /** `p` occurs in `s` starting at position `i`. */
  predicate OccursAt(s: string, p: string, i: int) {
    0 <= i && i + |p| <= |s| && s[i..i + |p|] == p
  }

  /** `s.includes(p)`: `p` occurs in `s` at some position. */
  predicate Contains(s: string, p: string) {
    exists i :: 0 <= i <= |s| - |p| && OccursAt(s, p, i)
  }

  /** `getTagColor`: the first keyword group found in the lower-cased tag decides. */
  function GetTagColor(tagName: string): TagColor {
    var lowerCaseTag := ToLower(tagName);
    if Contains(lowerCaseTag, "best seller") || Contains(lowerCaseTag, "most popular") then Yellow
    else if Contains(lowerCaseTag, "new") then Green
    else if Contains(lowerCaseTag, "must try") then Purple
    else if Contains(lowerCaseTag, "sugar-free") then Blue
    else Gray
  }

  // ---------------------------------------------------------------------------
  // The classifier as a priority list
  // ---------------------------------------------------------------------------

  /** A keyword group and the colour it gives. */
  datatype Rule = Rule(keywords: seq<string>, color: TagColor)

  /** The rules in the order they are tried. */
  const Rules: seq<Rule> := [
    Rule(["best seller", "most popular"], Yellow),
    Rule(["new"], Green),
    Rule(["must try"], Purple),
    Rule(["sugar-free"], Blue)
  ]

  predicate Fires(r: Rule, t: string) {
    exists k :: 0 <= k < |r.keywords| && Contains(t, r.keywords[k])
  }

  /** The colour of the first rule that fires, gray when none does. */
  function FirstMatch(rules: seq<Rule>, t: string): (c: TagColor)
    ensures (forall i :: 0 <= i < |rules| ==> !Fires(rules[i], t)) ==> c == Gray
    ensures (exists i :: 0 <= i < |rules| && Fires(rules[i], t)) ==>
      exists i :: 0 <= i < |rules| && Fires(rules[i], t) && c == rules[i].color &&
        forall j :: 0 <= j < i ==> !Fires(rules[j], t)
  {
    if |rules| == 0 then Gray
    else if Fires(rules[0], t) then rules[0].color
    else
      assert forall i :: 1 <= i < |rules| ==> rules[i] == rules[1..][i - 1];
      FirstMatch(rules[1..], t)
  }

  /** `getTagColor` is the priority list: the first rule whose keyword occurs
      in the lower-cased tag decides, and gray when none occurs. */
  lemma TagColorIsFirstMatch(tag: string)
    ensures GetTagColor(tag) == FirstMatch(Rules, ToLower(tag))
  {
    var t := ToLower(tag);
    assert Fires(Rules[0], t) <==> Contains(t, "best seller") || Contains(t, "most popular") by {
      assert Rules[0].keywords[0] == "best seller" && Rules[0].keywords[1] == "most popular";
    }
    assert Fires(Rules[1], t) <==> Contains(t, "new") by {
      assert Rules[1].keywords[0] == "new";
    }
    assert Fires(Rules[2], t) <==> Contains(t, "must try") by {
      assert Rules[2].keywords[0] == "must try";
    }
    assert Fires(Rules[3], t) <==> Contains(t, "sugar-free") by {
      assert Rules[3].keywords[0] == "sugar-free";
    }
    assert Rules[1..][1..][1..][1..] == [];
  }

  /** A tag is gray exactly when none of the keywords occurs in it. */
  lemma GrayIffNoKeyword(tag: string)
    ensures GetTagColor(tag) == Gray <==>
      forall i :: 0 <= i < |Rules| ==> !Fires(Rules[i], ToLower(tag))
  {
    TagColorIsFirstMatch(tag);
  }

  lemma LowerCharIdempotent(c: char)
    ensures LowerChar(LowerChar(c)) == LowerChar(c)
  {
  }

  /** Lower-casing twice is lower-casing once. */
  lemma ToLowerIdempotent(s: string)
    ensures ToLower(ToLower(s)) == ToLower(s)
  {
    forall i | 0 <= i < |s| ensures ToLower(ToLower(s))[i] == ToLower(s)[i] {
      LowerCharIdempotent(s[i]);
    }
  }

  /** The colour does not depend on letter case: a tag and its lower-case
      form get the same colour, and so do any two tags equal up to case. */
  lemma TagColorCaseInsensitive(tag: string, other: string)
    ensures GetTagColor(ToLower(tag)) == GetTagColor(tag)
    ensures ToLower(tag) == ToLower(other) ==> GetTagColor(tag) == GetTagColor(other)
  {
    ToLowerIdempotent(tag);
  }

  /** Matching is by substring: "Renewed" is green because it contains "new",
      "Best Seller" is yellow, and "Spicy" falls through to gray. */
  lemma TagColorExamples()
    ensures GetTagColor("Renewed") == Green
    ensures GetTagColor("Best Seller") == Yellow
    ensures GetTagColor("Spicy") == Gray
  {
    var renewed := ToLower("Renewed");
    assert renewed == "renewed";
    assert OccursAt(renewed, "new", 2);
    var best := ToLower("Best Seller");
    assert best == "best seller";
    assert OccursAt(best, "best seller", 0);
    var spicy := ToLower("Spicy");
    assert spicy == "spicy";
    assert !Contains(spicy, "new") by {
      forall i | 0 <= i <= |spicy| - 3 ensures !OccursAt(spicy, "new", i) {
        assert spicy[i] != 'n';
      }
    }
  }

  // ---------------------------------------------------------------------------
  // The card's control
  // ---------------------------------------------------------------------------

  /** Either the "Add to Selection" button or a minus/plus stepper around the quantity. */
  datatype CardControl = AddButton | Stepper(quantity: int)

  /** The quantity the card shows: its drink's line in the cart, or 0. */
  function CardQuantity(s: CartStore.CartState, d: Drink): (q: int)
    ensures !Lines.Has(s.items, d.id) ==> q == 0
    ensures Lines.Has(s.items, d.id) ==> q == Lines.Find(s.items, d.id).value.quantity
  {
    Lines.QuantityOf(s.items, d.id)
  }

  function CardControlFor(s: CartStore.CartState, d: Drink): (c: CardControl)
    ensures c.AddButton? <==> CardQuantity(s, d) == 0
    ensures c.Stepper? ==> c.quantity == CardQuantity(s, d)
  {
    var quantity := CardQuantity(s, d);
    if quantity == 0 then AddButton else Stepper(quantity)
  }

  /** In a valid cart the card offers "Add to Selection" exactly when its
      drink has no line, and otherwise shows that line's quantity. */
  lemma AddButtonIffNotInCart(s: CartStore.CartState, d: Drink)
    requires Lines.Valid(s.items)
    ensures CardControlFor(s, d).AddButton? <==> !Lines.Has(s.items, d.id)
    ensures CardControlFor(s, d).Stepper? ==> CardControlFor(s, d).quantity >= 1
  {
  }

  /** Pressing add on a card turns it into a stepper one higher. */
  lemma CardAfterAdd(s: CartStore.CartState, d: Drink)
    requires Lines.Valid(s.items)
    ensures CardControlFor(CartStore.AddItem(s, ChoiceOf(d)), d) == Stepper(CardQuantity(s, d) + 1)
  {
  }

  /** Pressing minus lowers the stepper by one, back to the add button from 1. */
  lemma CardAfterRemove(s: CartStore.CartState, d: Drink)
    requires Lines.Valid(s.items)
    requires CardControlFor(s, d).Stepper?
    ensures CardControlFor(CartStore.RemoveItem(s, d.id), d) ==
      if CardQuantity(s, d) == 1 then AddButton else Stepper(CardQuantity(s, d) - 1)
  {
  }
}
