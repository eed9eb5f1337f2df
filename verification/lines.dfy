/** The merge-by-identity line list the cart store keeps twice: once for drink
    lines and once for add-on lines. A line is an entry (the drink or add-on
    fields the store copied in) plus a quantity; lines are keyed by `id`.
    Adding an id that is present raises its quantity, otherwise appends a
    line of quantity 1; removing lowers a quantity above 1, otherwise drops
    the line. */
module Lines {
  import opened Common

  datatype Line<T> = Line(id: string, entry: T, quantity: int)

  /** True when some line carries `id`. */
  predicate Has<T>(lines: seq<Line<T>>, id: string) {
    exists i :: 0 <= i < |lines| && lines[i].id == id
  }

  /** No two lines share an id. */
  predicate UniqueIds<T>(lines: seq<Line<T>>) {
    forall i, j :: 0 <= i < j < |lines| ==> lines[i].id != lines[j].id
  }

  /** Every stored quantity is at least 1 (a quantity of 0 is never stored). */
  predicate Positive<T>(lines: seq<Line<T>>) {
    forall i :: 0 <= i < |lines| ==> lines[i].quantity >= 1
  }

  /** The store's invariant: one line per id, every quantity at least 1. */
  predicate Valid<T>(lines: seq<Line<T>>) {
    UniqueIds(lines) && Positive(lines)
  }

  /** Position of the first line carrying `id` (`findIndex`). */
  function IndexOf<T>(lines: seq<Line<T>>, id: string): (r: Option<nat>)
    ensures r.None? <==> !Has(lines, id)
    ensures r.Some? ==> r.value < |lines| && lines[r.value].id == id
    ensures r.Some? ==> forall j :: 0 <= j < r.value ==> lines[j].id != id
  {
    if |lines| == 0 then None
    else if lines[0].id == id then Some(0)
    else
      match IndexOf(lines[1..], id)
      case None =>
        assert forall i :: 1 <= i < |lines| ==> lines[i] == lines[1..][i - 1];
        None
      case Some(k) => Some(k + 1)
  }

  /** The first line carrying `id` (`Array.prototype.find`). */
  function Find<T>(lines: seq<Line<T>>, id: string): (r: Option<Line<T>>)
    ensures r.None? <==> !Has(lines, id)
    ensures r.Some? ==> r.value.id == id && r.value == lines[IndexOf(lines, id).value]
  {
    match IndexOf(lines, id)
    case None => None
    case Some(k) => Some(lines[k])
  }

  /** The quantity shown for `id`: the first matching line's, or 0. */
  function QuantityOf<T>(lines: seq<Line<T>>, id: string): (q: int)
    ensures !Has(lines, id) ==> q == 0
    ensures Positive(lines) && Has(lines, id) ==> q >= 1
  {
    match Find(lines, id)
    case Some(l) => l.quantity
    case None => 0
  }

  /** One line after a `map` step that shifts the quantity of lines carrying `id`. */
  function Shift<T>(l: Line<T>, id: string, delta: int): Line<T> {
    if l.id == id then l.(quantity := l.quantity + delta) else l
  }

  /** `lines.map(l => l.id === id ? {...l, quantity: l.quantity + delta} : l)`. */
  function Adjust<T>(lines: seq<Line<T>>, id: string, delta: int): (r: seq<Line<T>>)
    ensures |r| == |lines|
    ensures forall i :: 0 <= i < |lines| ==> r[i] == Shift(lines[i], id, delta)
  {
    if |lines| == 0 then []
    else [Shift(lines[0], id, delta)] + Adjust(lines[1..], id, delta)
  }

  /** `lines.filter(l => l.id !== id)`. */
  function Without<T>(lines: seq<Line<T>>, id: string): (r: seq<Line<T>>)
    ensures !Has(r, id)
    ensures !Has(lines, id) ==> r == lines
    ensures |r| <= |lines|
  {
    if |lines| == 0 then []
    else if lines[0].id == id then Without(lines[1..], id)
    else
      var rest := Without(lines[1..], id);
      assert !Has(lines[1..], id) ==> !Has(lines, id) by {
        if !Has(lines[1..], id) {
          forall i | 1 <= i < |lines| ensures lines[i].id != id {
            assert lines[i] == lines[1..][i - 1];
          }
        }
      }
      [lines[0]] + rest
  }

  /** Adding an entry (`addItem` / `addAddon`). */
  function Add<T>(lines: seq<Line<T>>, id: string, entry: T): (r: seq<Line<T>>)
    ensures Has(r, id)
    ensures !Has(lines, id) ==> r == lines + [Line(id, entry, 1)]
    ensures Has(lines, id) ==> |r| == |lines|
  {
    if Find(lines, id).Some? then Adjust(lines, id, 1)
    else
      var r := lines + [Line(id, entry, 1)];
      assert r[|lines|].id == id;
      r
  }

  /** Removing one unit of `id` (`removeItem` / `removeAddon`). */
  function Remove<T>(lines: seq<Line<T>>, id: string): (r: seq<Line<T>>)
    ensures !Has(lines, id) ==> r == lines
  {
    var found := Find(lines, id);
    if found.Some? && found.value.quantity > 1 then Adjust(lines, id, -1)
    else Without(lines, id)
  }

  /** Sum of the quantities (`lines.reduce((t, l) => t + l.quantity, 0)`). */
  function TotalQuantity<T>(lines: seq<Line<T>>): int {
    if |lines| == 0 then 0 else lines[0].quantity + TotalQuantity(lines[1..])
  }

  // ---------------------------------------------------------------------------
  // Facts about finding a line
  // ---------------------------------------------------------------------------

  /** Under unique ids the line carrying `id` sits at exactly one index. */
  lemma IndexOfUnique<T>(lines: seq<Line<T>>, id: string, k: nat)
    requires UniqueIds(lines)
    requires k < |lines| && lines[k].id == id
    ensures IndexOf(lines, id) == Some(k)
    ensures Find(lines, id) == Some(lines[k])
    ensures QuantityOf(lines, id) == lines[k].quantity
  {
  }

  /** Lookup depends only on the ids, position by position. */
  lemma IndexOfSameIds<T>(a: seq<Line<T>>, b: seq<Line<T>>, id: string)
    requires |a| == |b|
    requires forall i :: 0 <= i < |a| ==> a[i].id == b[i].id
    ensures IndexOf(a, id) == IndexOf(b, id)
  {
    if Has(a, id) {
      assert b[IndexOf(a, id).value].id == id;
    }
    if Has(b, id) {
      assert a[IndexOf(b, id).value].id == id;
    }
  }

  /** A line appended behind the others is found only when no earlier line matches. */
  lemma IndexOfAppend<T>(lines: seq<Line<T>>, l: Line<T>, id: string)
    ensures Has(lines, id) ==> IndexOf(lines + [l], id) == IndexOf(lines, id)
    ensures !Has(lines, id) && l.id == id ==> IndexOf(lines + [l], id) == Some(|lines|)
    ensures !Has(lines, id) && l.id != id ==> IndexOf(lines + [l], id) == None
  {
    var s := lines + [l];
    assert forall j :: 0 <= j < |lines| ==> s[j] == lines[j];
    assert s[|lines|] == l;
    if Has(lines, id) {
      var il := IndexOf(lines, id).value;
      IndexOfIs(s, id, il);
    } else if l.id == id {
      IndexOfIs(s, id, |lines|);
    } else {
      assert forall j :: 0 <= j < |s| ==> s[j].id != id;
    }
  }

  /** The first index carrying `id` is the one `IndexOf` reports. */
  lemma IndexOfIs<T>(lines: seq<Line<T>>, id: string, k: nat)
    requires k < |lines| && lines[k].id == id
    requires forall j :: 0 <= j < k ==> lines[j].id != id
    ensures IndexOf(lines, id) == Some(k)
  {
    assert Has(lines, id);
    var m := IndexOf(lines, id).value;
    assert lines[m].id == id;
    assert forall j :: 0 <= j < m ==> lines[j].id != id;
  }

  // ---------------------------------------------------------------------------
  // Adding
  // ---------------------------------------------------------------------------

  /** Adding an id that is present raises exactly that line's quantity by 1;
      every other line, and the order, stay as they were. */
  lemma AddPresent<T>(lines: seq<Line<T>>, id: string, entry: T, k: nat)
    requires UniqueIds(lines)
    requires k < |lines| && lines[k].id == id
    ensures Add(lines, id, entry) == lines[k := lines[k].(quantity := lines[k].quantity + 1)]
  {
    var bumped := lines[k := lines[k].(quantity := lines[k].quantity + 1)];
    assert Has(lines, id);
    var r := Adjust(lines, id, 1);
    assert Add(lines, id, entry) == r;
    forall i | 0 <= i < |lines| ensures r[i] == bumped[i] {
      if i != k {
        assert lines[i].id != id;
      }
    }
  }

  /** Adding raises the quantity of the added id by 1 and leaves every other
      id's quantity alone; no invariant is needed for this. */
  lemma {:induction false} QuantityAfterAdd<T>(lines: seq<Line<T>>, id: string, entry: T, other: string)
    ensures QuantityOf(Add(lines, id, entry), id) == QuantityOf(lines, id) + 1
    ensures other != id ==> QuantityOf(Add(lines, id, entry), other) == QuantityOf(lines, other)
  {
    var r := Add(lines, id, entry);
    if Has(lines, id) {
      IndexOfSameIds(r, lines, id);
      IndexOfSameIds(r, lines, other);
    } else {
      IndexOfAppend(lines, Line(id, entry, 1), id);
      IndexOfAppend(lines, Line(id, entry, 1), other);
    }
  }

  /** Adding keeps one line per id and all quantities positive. */
  lemma AddPreservesValid<T>(lines: seq<Line<T>>, id: string, entry: T)
    requires Valid(lines)
    ensures Valid(Add(lines, id, entry))
  {
    var r := Add(lines, id, entry);
    if Has(lines, id) {
      assert r == Adjust(lines, id, 1);
      assert forall i :: 0 <= i < |r| ==> r[i].id == lines[i].id && r[i].quantity >= lines[i].quantity;
      SameIdsUnique(lines, r);
    } else {
      AppendUnique(lines, Line(id, entry, 1));
    }
  }

  /** Lines with the same ids position by position are unique together. */
  lemma SameIdsUnique<T>(a: seq<Line<T>>, b: seq<Line<T>>)
    requires UniqueIds(a)
    requires |a| == |b| && forall i :: 0 <= i < |a| ==> a[i].id == b[i].id
    ensures UniqueIds(b)
  {
    forall i, j | 0 <= i < j < |b| ensures b[i].id != b[j].id {
      assert a[i].id != a[j].id;
    }
  }

  /** Appending a line with a new id keeps the ids unique. */
  lemma AppendUnique<T>(lines: seq<Line<T>>, l: Line<T>)
    requires UniqueIds(lines) && !Has(lines, l.id)
    ensures UniqueIds(lines + [l])
  {
    var r := lines + [l];
    forall i, j | 0 <= i < j < |r| ensures r[i].id != r[j].id {
      assert r[i] == lines[i];
      if j < |lines| { assert r[j] == lines[j]; }
    }
  }

  // ---------------------------------------------------------------------------
  // Removing
  // ---------------------------------------------------------------------------

  /** Filtering out the one line carrying `id` splices it out of the sequence. */
  lemma WithoutAt<T>(lines: seq<Line<T>>, id: string, k: nat)
    requires UniqueIds(lines)
    requires k < |lines| && lines[k].id == id
    ensures Without(lines, id) == lines[..k] + lines[k + 1..]
  {
    assert forall i :: 0 <= i < |lines| && i != k ==> lines[i].id != id;
    WithoutOnly(lines, id, k);
  }

  /** The filter splices out line `k` when it is the only line carrying `id`. */
  lemma {:induction false} WithoutOnly<T>(lines: seq<Line<T>>, id: string, k: nat)
    requires k < |lines| && lines[k].id == id
    requires forall i :: 0 <= i < |lines| && i != k ==> lines[i].id != id
    ensures Without(lines, id) == lines[..k] + lines[k + 1..]
  {
    var tail := lines[1..];
    if k == 0 {
      assert !Has(tail, id) by {
        forall i | 0 <= i < |tail| ensures tail[i].id != id {
          assert tail[i] == lines[i + 1];
        }
      }
      assert Without(lines, id) == tail;
      assert lines[..0] + lines[1..] == tail;
    } else {
      assert Without(lines, id) == [lines[0]] + Without(tail, id);
      assert forall i :: 0 <= i < |tail| && i != k - 1 ==> tail[i].id != id by {
        forall i | 0 <= i < |tail| && i != k - 1 ensures tail[i].id != id {
          assert tail[i] == lines[i + 1];
        }
      }
      assert tail[k - 1] == lines[k];
      WithoutOnly(tail, id, k - 1);
      ConsSplice(lines, k);
    }
  }

  /** Putting the head back in front of the tail with its line `k - 1` cut
      out is `s` with line `k` cut out. */
  lemma ConsSplice<T>(s: seq<T>, k: nat)
    requires 0 < k < |s|
    ensures [s[0]] + (s[1..][..k - 1] + s[1..][k..]) == s[..k] + s[k + 1..]
  {
    assert s[1..][..k - 1] == s[1..k];
    assert s[1..][k..] == s[k + 1..];
    assert [s[0]] + s[1..k] == s[..k];
  }

  /** Removing an id whose quantity exceeds 1 lowers exactly that quantity by 1. */
  lemma RemoveDecrements<T>(lines: seq<Line<T>>, id: string, k: nat)
    requires UniqueIds(lines)
    requires k < |lines| && lines[k].id == id && lines[k].quantity > 1
    ensures Remove(lines, id) == lines[k := lines[k].(quantity := lines[k].quantity - 1)]
  {
    IndexOfUnique(lines, id, k);
  }

  /** Removing an id whose quantity is 1 or less deletes its line and keeps the rest in order. */
  lemma RemoveDeletes<T>(lines: seq<Line<T>>, id: string, k: nat)
    requires UniqueIds(lines)
    requires k < |lines| && lines[k].id == id && lines[k].quantity <= 1
    ensures Remove(lines, id) == lines[..k] + lines[k + 1..]
  {
    IndexOfUnique(lines, id, k);
    WithoutAt(lines, id, k);
  }

  /** Under the invariant, removing lowers the quantity of `id` by one, floored
      at 0, and leaves every other id's quantity alone. */
  lemma QuantityAfterRemove<T>(lines: seq<Line<T>>, id: string, other: string)
    requires Valid(lines)
    ensures QuantityOf(Remove(lines, id), id) == Max(0, QuantityOf(lines, id) - 1)
    ensures other != id ==> QuantityOf(Remove(lines, id), other) == QuantityOf(lines, other)
  {
    var idx := IndexOf(lines, id);
    if idx.Some? {
      var k := idx.value;
      if lines[k].quantity > 1 {
        var r := Remove(lines, id);
        RemoveDecrements(lines, id, k);
        IndexOfUnique(r, id, k);
        IndexOfSameIds(r, lines, other);
      } else {
        RemoveDeletes(lines, id, k);
        if other != id {
          QuantityAfterDelete(lines, k, other);
        }
      }
    }
  }

  /** Splicing out line `k` of a valid sequence leaves the quantity of every
      other id alone. */
  lemma QuantityAfterDelete<T>(lines: seq<Line<T>>, k: nat, other: string)
    requires Valid(lines)
    requires k < |lines| && lines[k].id != other
    ensures QuantityOf(lines[..k] + lines[k + 1..], other) == QuantityOf(lines, other)
  {
    var r := lines[..k] + lines[k + 1..];
    assert UniqueIds(r);
    var o := IndexOf(lines, other);
    if o.Some? {
      var m := o.value;
      if m < k {
        assert r[m] == lines[m];
        IndexOfUnique(r, other, m);
      } else {
        assert r[m - 1] == lines[m];
        IndexOfUnique(r, other, m - 1);
      }
    } else {
      assert !Has(r, other) by {
        forall i | 0 <= i < |r| ensures r[i].id != other {
          if i < k { assert r[i] == lines[i]; } else { assert r[i] == lines[i + 1]; }
        }
      }
    }
  }

  /** Removing keeps one line per id and all quantities positive. */
  lemma RemovePreservesValid<T>(lines: seq<Line<T>>, id: string)
    requires Valid(lines)
    ensures Valid(Remove(lines, id))
  {
    var idx := IndexOf(lines, id);
    if idx.Some? {
      var k := idx.value;
      if lines[k].quantity > 1 {
        RemoveDecrements(lines, id, k);
      } else {
        RemoveDeletes(lines, id, k);
        var r := Remove(lines, id);
        forall i, j | 0 <= i < j < |r| ensures r[i].id != r[j].id {
          var i' := if i < k then i else i + 1;
          var j' := if j < k then j else j + 1;
          assert r[i] == lines[i'] && r[j] == lines[j'];
        }
        forall i | 0 <= i < |r| ensures r[i].quantity >= 1 {
          if i < k { assert r[i] == lines[i]; } else { assert r[i] == lines[i + 1]; }
        }
      }
    }
  }

  /** Removing an id right after adding it restores the original lines. */
  lemma RemoveAfterAdd<T>(lines: seq<Line<T>>, id: string, entry: T)
    requires Valid(lines)
    ensures Remove(Add(lines, id, entry), id) == lines
  {
    var idx := IndexOf(lines, id);
    if idx.Some? {
      RemoveAfterAddPresent(lines, id, entry, idx.value);
    } else {
      RemoveAfterAddAbsent(lines, id, entry);
    }
  }

  lemma RemoveAfterAddPresent<T>(lines: seq<Line<T>>, id: string, entry: T, k: nat)
    requires Valid(lines)
    requires k < |lines| && lines[k].id == id
    ensures Remove(Add(lines, id, entry), id) == lines
  {
    var added := lines[k := lines[k].(quantity := lines[k].quantity + 1)];
    AddPresent(lines, id, entry, k);
    SameIdsUnique(lines, added);
    assert added[k].id == id && added[k].quantity > 1;
    RemoveDecrements(added, id, k);
    assert added[k].(quantity := added[k].quantity - 1) == lines[k];
    assert added[k := lines[k]] == lines;
  }

  lemma RemoveAfterAddAbsent<T>(lines: seq<Line<T>>, id: string, entry: T)
    requires Valid(lines) && !Has(lines, id)
    ensures Remove(Add(lines, id, entry), id) == lines
  {
    var added := lines + [Line(id, entry, 1)];
    AppendUnique(lines, Line(id, entry, 1));
    RemoveDeletes(added, id, |lines|);
    assert added[..|lines|] == lines;
  }

  // ---------------------------------------------------------------------------
  // Totals
  // ---------------------------------------------------------------------------

  lemma {:induction false} TotalAppend<T>(a: seq<Line<T>>, b: seq<Line<T>>)
    ensures TotalQuantity(a + b) == TotalQuantity(a) + TotalQuantity(b)
  {
    if |a| == 0 {
      assert a + b == b;
    } else {
      assert (a + b)[1..] == a[1..] + b;
      TotalAppend(a[1..], b);
    }
  }

  lemma TotalSplit<T>(lines: seq<Line<T>>, k: nat)
    requires k < |lines|
    ensures TotalQuantity(lines) == TotalQuantity(lines[..k]) + lines[k].quantity + TotalQuantity(lines[k + 1..])
  {
    assert lines == lines[..k] + ([lines[k]] + lines[k + 1..]);
    TotalAppend(lines[..k], [lines[k]] + lines[k + 1..]);
    assert ([lines[k]] + lines[k + 1..])[1..] == lines[k + 1..];
  }

  /** With every quantity at least 1 the total is at least the number of lines,
      so the total is 0 exactly when there are no lines. */
  lemma {:induction false} TotalAtLeastLength<T>(lines: seq<Line<T>>)
    requires Positive(lines)
    ensures TotalQuantity(lines) >= |lines|
    ensures TotalQuantity(lines) == 0 <==> |lines| == 0
  {
    if |lines| > 0 {
      assert Positive(lines[1..]) by {
        forall i | 0 <= i < |lines[1..]| ensures lines[1..][i].quantity >= 1 {
          assert lines[1..][i] == lines[i + 1];
        }
      }
      TotalAtLeastLength(lines[1..]);
    }
  }

  /** Adding raises the total by exactly 1. */
  lemma TotalAfterAdd<T>(lines: seq<Line<T>>, id: string, entry: T)
    requires UniqueIds(lines)
    ensures TotalQuantity(Add(lines, id, entry)) == TotalQuantity(lines) + 1
  {
    var idx := IndexOf(lines, id);
    if idx.Some? {
      var k := idx.value;
      var r := Add(lines, id, entry);
      AddPresent(lines, id, entry, k);
      TotalSplit(lines, k);
      TotalSplit(r, k);
      assert r[..k] == lines[..k] && r[k + 1..] == lines[k + 1..];
    } else {
      TotalAppend(lines, [Line(id, entry, 1)]);
    }
  }

  /** Removing lowers the total by 1 when the id is present, and not at all otherwise. */
  lemma TotalAfterRemove<T>(lines: seq<Line<T>>, id: string)
    requires Valid(lines)
    ensures TotalQuantity(Remove(lines, id)) == TotalQuantity(lines) - (if Has(lines, id) then 1 else 0)
  {
    var idx := IndexOf(lines, id);
    if idx.Some? {
      var k := idx.value;
      var r := Remove(lines, id);
      TotalSplit(lines, k);
      if lines[k].quantity > 1 {
        RemoveDecrements(lines, id, k);
        TotalSplit(r, k);
        assert r[..k] == lines[..k] && r[k + 1..] == lines[k + 1..];
      } else {
        RemoveDeletes(lines, id, k);
        TotalAppend(lines[..k], lines[k + 1..]);
      }
    }
  }
}
