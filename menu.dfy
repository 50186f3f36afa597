/**
 * The menu page of one restaurant (Pages/Menu.js): the cart ledger that
 * `addToCart` and `updateCartQuantity` rewrite on every user action, its
 * totals, and the category list and category filter over the menu.
 * Prices are integer cents.
 */
module Menu {
  import opened Seqs

  datatype MenuItem = MenuItem(id: string, name: string, category: string, price: int)

  /** A cart entry: the menu item spread into a new object with a `quantity`. */
  datatype CartLine = CartLine(item: MenuItem, quantity: int)

  /** Some line of the cart has item id `id` (`prevCart.find(...)` finds something). */
  predicate InCart(lines: seq<CartLine>, id: string) {
    exists i | 0 <= i < |lines| :: lines[i].item.id == id
  }

  /** At most one line per item id. */
  ghost predicate DistinctIds(lines: seq<CartLine>) {
    forall i, j :: 0 <= i < j < |lines| ==> lines[i].item.id != lines[j].item.id
  }

  /** The ledger invariant: one line per id, and every quantity at least 1. */
  ghost predicate Valid(lines: seq<CartLine>) {
    DistinctIds(lines) && forall i :: 0 <= i < |lines| ==> lines[i].quantity >= 1
  }

  /** `prevCart.map(l => l.id === id ? {...l, quantity: l.quantity + delta} : l)`. */
  function Bumped(lines: seq<CartLine>, id: string, delta: int): (r: seq<CartLine>)
    ensures |r| == |lines|
    ensures forall i :: 0 <= i < |lines| ==> r[i].item == lines[i].item
    ensures forall i :: 0 <= i < |lines| ==>
      r[i].quantity == if lines[i].item.id == id then lines[i].quantity + delta else lines[i].quantity
  {
    if lines == [] then []
    else
      var l := lines[0];
      [if l.item.id == id then l.(quantity := l.quantity + delta) else l] + Bumped(lines[1..], id, delta)
  }

  /** `prevCart.map(l => l.id === id ? {...l, quantity: q} : l)`. */
  function WithQuantity(lines: seq<CartLine>, id: string, q: int): (r: seq<CartLine>)
    ensures |r| == |lines|
    ensures forall i :: 0 <= i < |lines| ==> r[i].item == lines[i].item
    ensures forall i :: 0 <= i < |lines| ==>
      r[i].quantity == if lines[i].item.id == id then q else lines[i].quantity
  {
    if lines == [] then []
    else
      var l := lines[0];
      [if l.item.id == id then l.(quantity := q) else l] + WithQuantity(lines[1..], id, q)
  }

  /** The filter predicate `item => item.id !== id`. */
  function IdIsNot(id: string): CartLine -> bool {
    (l: CartLine) => l.item.id != id
  }

  /** The new cart after `addToCart(item, quantity)`. */
  function Added(lines: seq<CartLine>, item: MenuItem, quantity: int): (r: seq<CartLine>)
    ensures InCart(lines, item.id) ==>
      && |r| == |lines|
      && (forall i :: 0 <= i < |lines| ==> r[i].item == lines[i].item)
      && (forall i :: 0 <= i < |lines| ==>
            r[i].quantity == if lines[i].item.id == item.id then lines[i].quantity + quantity else lines[i].quantity)
    ensures !InCart(lines, item.id) ==>
      && |r| == |lines| + 1
      && r[..|lines|] == lines
      && r[|lines|] == CartLine(item, quantity)
  {
    if InCart(lines, item.id) then Bumped(lines, item.id, quantity)
    else lines + [CartLine(item, quantity)]
  }

  /** The new cart after `updateCartQuantity(id, q)`: 0 removes the line, anything else overwrites it. */
  function Updated(lines: seq<CartLine>, id: string, q: int): (r: seq<CartLine>)
    ensures q == 0 ==> forall x :: x in r <==> x in lines && x.item.id != id
    ensures q == 0 ==> r == Filter(lines, IdIsNot(id))
    ensures q != 0 ==>
      && |r| == |lines|
      && (forall i :: 0 <= i < |lines| ==> r[i].item == lines[i].item)
      && (forall i :: 0 <= i < |lines| ==>
            r[i].quantity == if lines[i].item.id == id then q else lines[i].quantity)
    ensures !InCart(lines, id) ==> r == lines
  {
    if q == 0 then
      if !InCart(lines, id) then
        Seqs.FilterAllPass(lines, IdIsNot(id));
        Filter(lines, IdIsNot(id))
      else
        Filter(lines, IdIsNot(id))
    else
      var r := WithQuantity(lines, id, q);
      assert !InCart(lines, id) ==> r == lines;
      r
  }

  /** One line's contribution: unit price times quantity. */
  function LineTotal(l: CartLine): (r: int)
    ensures l.quantity == 0 ==> r == 0
    ensures l.quantity == 1 ==> r == l.item.price
    ensures l.item.price >= 0 && l.quantity >= 0 ==> r >= 0
  {
    l.item.price * l.quantity
  }

  /** `getCartTotal()`: the sum of the line totals; 0 for the empty cart. */
  function CartTotal(lines: seq<CartLine>): (t: int)
    ensures lines == [] ==> t == 0
    ensures |lines| == 1 ==> t == LineTotal(lines[0])
  {
    if lines == [] then 0 else LineTotal(lines[0]) + CartTotal(lines[1..])
  }

  /** `getCartItemCount()`: the sum of the quantities; 0 for the empty cart. */
  function ItemCount(lines: seq<CartLine>): (n: int)
    ensures lines == [] ==> n == 0
    ensures |lines| == 1 ==> n == lines[0].quantity
  {
    if lines == [] then 0 else lines[0].quantity + ItemCount(lines[1..])
  }

  lemma {:induction false} TotalsConcat(a: seq<CartLine>, b: seq<CartLine>)
    ensures CartTotal(a + b) == CartTotal(a) + CartTotal(b)
    ensures ItemCount(a + b) == ItemCount(a) + ItemCount(b)
  {
    if a == [] {
      assert a + b == b;
    } else {
      assert (a + b)[1..] == a[1..] + b;
      TotalsConcat(a[1..], b);
    }
  }

  /**
   * With no negative price and no negative quantity, the empty cart totals 0
   * and no cart has a negative total or a negative badge count.
   */
  lemma {:induction false} TotalsNonNegative(lines: seq<CartLine>)
    requires forall i :: 0 <= i < |lines| ==> lines[i].item.price >= 0 && lines[i].quantity >= 0
    ensures lines == [] ==> CartTotal(lines) == 0 && ItemCount(lines) == 0
    ensures CartTotal(lines) >= 0 && ItemCount(lines) >= 0
  {
    if lines != [] {
      assert forall i :: 0 <= i < |lines| - 1 ==> lines[1..][i] == lines[i + 1];
      TotalsNonNegative(lines[1..]);
      NonNegativeProduct(lines[0].item.price, lines[0].quantity);
    }
  }

  lemma NonNegativeProduct(a: int, b: int)
    requires a >= 0 && b >= 0
    ensures a * b >= 0
  {
  }

  /** Changing the quantity of the line at `k` changes the totals by that line's difference only. */
  lemma {:induction false} TotalsPointUpdate(lines: seq<CartLine>, r: seq<CartLine>, k: nat)
    requires k < |lines| == |r|
    requires r[k].item == lines[k].item
    requires forall i :: 0 <= i < |lines| && i != k ==> r[i] == lines[i]
    ensures CartTotal(r) == CartTotal(lines) + lines[k].item.price * (r[k].quantity - lines[k].quantity)
    ensures ItemCount(r) == ItemCount(lines) + r[k].quantity - lines[k].quantity
  {
    if k == 0 {
      assert r[1..] == lines[1..];
    } else {
      TotalsPointUpdate(lines[1..], r[1..], k - 1);
    }
  }

  /** `addToCart` keeps the ledger invariant when the added quantity is positive. */
  lemma AddedKeepsValid(lines: seq<CartLine>, item: MenuItem, quantity: int)
    requires Valid(lines) && quantity >= 1
    ensures Valid(Added(lines, item, quantity))
  {
    var r := Added(lines, item, quantity);
    if !InCart(lines, item.id) {
      forall i, j | 0 <= i < j < |r| ensures r[i].item.id != r[j].item.id {
        if j == |lines| {
          assert r[i] == lines[i];
        } else {
          assert r[i] == lines[i] && r[j] == lines[j];
        }
      }
    }
  }

  /** Adding `a` then `b` of the same item is adding `a + b` (so 2 then 3 gives 5). */
  lemma AddedTwice(lines: seq<CartLine>, item: MenuItem, a: int, b: int)
    ensures Added(Added(lines, item, a), item, b) == Added(lines, item, a + b)
  {
    if InCart(lines, item.id) {
      BumpedTwice(lines, item.id, a, b);
    } else {
      var once := lines + [CartLine(item, a)];
      assert once[|lines|].item.id == item.id;
      BumpedNew(lines, item, a, b);
    }
  }

  /** Bumping one id by `a` and then by `b` bumps it by `a + b`. */
  lemma BumpedTwice(lines: seq<CartLine>, id: string, a: int, b: int)
    ensures Bumped(Bumped(lines, id, a), id, b) == Bumped(lines, id, a + b)
  {
    var lhs, rhs := Bumped(Bumped(lines, id, a), id, b), Bumped(lines, id, a + b);
    forall i | 0 <= i < |lhs| ensures lhs[i] == rhs[i] {
    }
  }

  /** Bumping a line just appended for a new item adds to that line and leaves the others. */
  lemma BumpedNew(lines: seq<CartLine>, item: MenuItem, a: int, b: int)
    requires !InCart(lines, item.id)
    ensures Bumped(lines + [CartLine(item, a)], item.id, b) == lines + [CartLine(item, a + b)]
  {
    var once := lines + [CartLine(item, a)];
    var lhs, rhs := Bumped(once, item.id, b), lines + [CartLine(item, a + b)];
    forall i | 0 <= i < |lhs| ensures lhs[i] == rhs[i] {
      if i < |lines| {
        assert once[i] == lines[i] && lines[i].item.id != item.id;
      }
    }
  }

  /** From an empty cart, adding 2 then 3 of one item leaves one line of 5, costing five prices. */
  lemma AddTwoThenThree(item: MenuItem)
    ensures Added(Added([], item, 2), item, 3) == [CartLine(item, 5)]
    ensures CartTotal(Added(Added([], item, 2), item, 3)) == 5 * item.price
  {
    AddedTwice([], item, 2, 3);
    assert Added([], item, 5) == [CartLine(item, 5)];
  }

  /** The line of `lines` holding item id `id`, when there is one. */
  function LineIndex(lines: seq<CartLine>, id: string): (k: nat)
    requires InCart(lines, id)
    ensures k < |lines| && lines[k].item.id == id
  {
    if lines[0].item.id == id then 0
    else
      assert InCart(lines[1..], id) by {
        var i :| 0 <= i < |lines| && lines[i].item.id == id;
        assert lines[1..][i - 1].item.id == id;
      }
      1 + LineIndex(lines[1..], id)
  }

  /** What `addToCart` does to the totals: `quantity` more of the item, priced as the existing line (or the item when new). */
  lemma AddedTotals(lines: seq<CartLine>, item: MenuItem, quantity: int)
    requires DistinctIds(lines)
    ensures var r := Added(lines, item, quantity);
      && ItemCount(r) == ItemCount(lines) + quantity
      && CartTotal(r) == CartTotal(lines) + quantity *
           (if InCart(lines, item.id) then lines[LineIndex(lines, item.id)].item.price else item.price)
  {
    var r := Added(lines, item, quantity);
    if InCart(lines, item.id) {
      var k := LineIndex(lines, item.id);
      forall i | 0 <= i < |lines| && i != k ensures r[i] == lines[i] {
        assert lines[i].item.id != item.id;
      }
      assert r[k].quantity - lines[k].quantity == quantity;
      TotalsPointUpdate(lines, r, k);
      assert lines[k].item.price * quantity == quantity * lines[k].item.price;
    } else {
      assert r == lines + [CartLine(item, quantity)];
      TotalsConcat(lines, [CartLine(item, quantity)]);
      assert [CartLine(item, quantity)][1..] == [];
      assert item.price * quantity == quantity * item.price;
    }
  }

  /** What `updateCartQuantity(id, q)` does to the totals: the line's quantity goes to `q` (0 removes it). */
  lemma UpdatedTotals(lines: seq<CartLine>, id: string, q: int)
    requires DistinctIds(lines) && InCart(lines, id)
    ensures var r := Updated(lines, id, q); var l := lines[LineIndex(lines, id)];
      && ItemCount(r) == ItemCount(lines) + q - l.quantity
      && CartTotal(r) == CartTotal(lines) + l.item.price * (q - l.quantity)
  {
    var k := LineIndex(lines, id);
    if q == 0 {
      RemovedTotals(lines, id, k);
    } else {
      var r := WithQuantity(lines, id, q);
      forall i | 0 <= i < |lines| && i != k ensures r[i] == lines[i] {
        assert lines[i].item.id != id;
      }
      TotalsPointUpdate(lines, r, k);
    }
  }

  /** Removing the line at `k` takes its quantity and its line total out of the totals. */
  lemma RemovedTotals(lines: seq<CartLine>, id: string, k: nat)
    requires DistinctIds(lines) && k < |lines| && lines[k].item.id == id
    ensures ItemCount(Filter(lines, IdIsNot(id))) == ItemCount(lines) - lines[k].quantity
    ensures CartTotal(Filter(lines, IdIsNot(id))) == CartTotal(lines) - lines[k].item.price * lines[k].quantity
  {
    var before, after := lines[..k], lines[k + 1..];
    FilterWithoutOne(lines, id, k);
    assert lines == before + [lines[k]] + after;
    TotalsWithout(before, lines[k], after);
  }

  /** Taking one line out of the middle takes exactly its quantity and its line total out of the totals. */
  lemma TotalsWithout(before: seq<CartLine>, l: CartLine, after: seq<CartLine>)
    ensures ItemCount(before + [l] + after) == ItemCount(before + after) + l.quantity
    ensures CartTotal(before + [l] + after) == CartTotal(before + after) + LineTotal(l)
  {
    TotalsConcat(before + [l], after);
    TotalsConcat(before, [l]);
    TotalsConcat(before, after);
    assert [l][1..] == [];
  }

  /** Removing the only line with id `id` leaves the lines before and after it, in order. */
  lemma {:induction false} FilterWithoutOne(lines: seq<CartLine>, id: string, k: nat)
    requires DistinctIds(lines) && k < |lines| && lines[k].item.id == id
    ensures Filter(lines, IdIsNot(id)) == lines[..k] + lines[k + 1..]
  {
    var p := IdIsNot(id);
    var tail := lines[1..];
    assert DistinctIds(tail) by {
      forall i, j | 0 <= i < j < |tail| ensures tail[i].item.id != tail[j].item.id {
        assert tail[i] == lines[i + 1] && tail[j] == lines[j + 1];
      }
    }
    if k == 0 {
      forall i | 0 <= i < |tail| ensures p(tail[i]) {
        assert tail[i] == lines[i + 1];
      }
      FilterAllPass(tail, p);
      assert lines[..0] + lines[1..] == tail;
    } else {
      FilterWithoutOne(tail, id, k - 1);
      assert p(lines[0]);
      assert lines[..k] == [lines[0]] + tail[..k - 1];
      assert lines[k + 1..] == tail[k..];
    }
  }

  /** `updateCartQuantity` keeps the ledger invariant for any non-negative quantity. */
  lemma UpdatedKeepsValid(lines: seq<CartLine>, id: string, q: int)
    requires Valid(lines) && q >= 0
    ensures Valid(Updated(lines, id, q))
  {
    var r := Updated(lines, id, q);
    if q == 0 && InCart(lines, id) {
      FilterWithoutOne(lines, id, LineIndex(lines, id));
    }
  }

  /**
   * The badge count is at least the number of distinct lines, since each
   * line holds at least one, and equals it exactly when every line holds one.
   */
  lemma {:induction false} ItemCountAtLeastLines(lines: seq<CartLine>)
    requires Valid(lines)
    ensures ItemCount(lines) >= |lines|
    ensures ItemCount(lines) == |lines| <==> forall i :: 0 <= i < |lines| ==> lines[i].quantity == 1
  {
    if lines != [] {
      ItemCountAtLeastLines(lines[1..]);
      assert forall i :: 1 <= i < |lines| ==> lines[i] == lines[1..][i - 1];
    }
  }

  /** Two of one item make the badge count exceed the number of lines. */
  lemma ItemCountExceedsLines(item: MenuItem)
    ensures var lines := Added(Added([], item, 1), item, 1);
      lines == [CartLine(item, 2)] && ItemCount(lines) == 2 > |lines|
  {
    var once := Added([], item, 1);
    assert once == [CartLine(item, 1)];
    assert InCart(once, item.id) by {
      assert once[0].item.id == item.id;
    }
  }

  /** Adding one then setting the quantity to 0 empties a fresh cart, and its total is 0. */
  lemma AddThenRemoveEmpties(item: MenuItem)
    ensures Updated(Added([], item, 1), item.id, 0) == []
    ensures CartTotal(Updated(Added([], item, 1), item.id, 0)) == 0
  {
    var once := Added([], item, 1);
    assert once == [CartLine(item, 1)];
    assert Filter(once, IdIsNot(item.id)) == Filter(once[1..], IdIsNot(item.id));
  }

  /** The cart of one menu page. `lines` is the `cart` state, replaced on every update. */
  class Cart {
    var lines: seq<CartLine>

    constructor ()
      ensures lines == []
    {
      lines := [];
    }

    /** `addToCart(item, quantity = 1)`. */
    method AddToCart(item: MenuItem, quantity: int := 1)
      modifies this
      ensures lines == Added(old(lines), item, quantity)
      ensures Valid(old(lines)) && quantity >= 1 ==> Valid(lines)
      ensures DistinctIds(old(lines)) ==> ItemCount(lines) == ItemCount(old(lines)) + quantity
    {
      if Valid(lines) && quantity >= 1 {
        AddedKeepsValid(lines, item, quantity);
      }
      if DistinctIds(lines) {
        AddedTotals(lines, item, quantity);
      }
      if InCart(lines, item.id) {
        lines := Bumped(lines, item.id, quantity);
      } else {
        lines := lines + [CartLine(item, quantity)];
      }
    }

    /** `updateCartQuantity(itemId, newQuantity)`. */
    method UpdateCartQuantity(itemId: string, newQuantity: int)
      modifies this
      ensures lines == Updated(old(lines), itemId, newQuantity)
      ensures Valid(old(lines)) && newQuantity >= 0 ==> Valid(lines)
    {
      if Valid(lines) && newQuantity >= 0 {
        UpdatedKeepsValid(lines, itemId, newQuantity);
      }
      if newQuantity == 0 {
        lines := Filter(lines, IdIsNot(itemId));
      } else {
        lines := WithQuantity(lines, itemId, newQuantity);
      }
    }
  }

  /** `menuItems.filter(...)` predicate for one category. */
  function InCategory(category: string): MenuItem -> bool {
    (item: MenuItem) => item.category == category
  }

  /** `filteredItems`: everything for "all", otherwise exactly the items of that category, in menu order. */
  function FilteredItems(items: seq<MenuItem>, selected: string): (r: seq<MenuItem>)
    ensures selected == "all" ==> r == items
    ensures selected != "all" ==> forall x :: x in r <==> x in items && x.category == selected
    ensures selected != "all" ==> forall x :: multiset(r)[x] == if x.category == selected then multiset(items)[x] else 0
  {
    if selected == "all" then items
    else
      FilterMultiset(items, InCategory(selected));
      Filter(items, InCategory(selected))
  }

  /** The filtered list of a concatenated menu is the concatenation of the filtered lists (menu order is kept). */
  lemma FilteredItemsConcat(a: seq<MenuItem>, b: seq<MenuItem>, selected: string)
    ensures FilteredItems(a + b, selected) == FilteredItems(a, selected) + FilteredItems(b, selected)
  {
    if selected != "all" {
      FilterConcat(a, b, InCategory(selected));
    }
  }

  /** The first index at which `category` occurs in `items`, or `|items|`. */
  function FirstAppearance(items: seq<MenuItem>, category: string): (k: nat)
    ensures k <= |items|
    ensures k < |items| ==> items[k].category == category
    ensures forall i :: 0 <= i < k ==> items[i].category != category
  {
    if items == [] then 0
    else if items[0].category == category then 0
    else 1 + FirstAppearance(items[1..], category)
  }

  /** `[...new Set(menuItems.map(item => item.category))]`: every category once, in order of first appearance. */
  function Categories(items: seq<MenuItem>): (r: seq<string>)
    ensures forall c :: c in r <==> exists i :: 0 <= i < |items| && items[i].category == c
    ensures forall i, j :: 0 <= i < j < |r| ==> r[i] != r[j]
  {
    if items == [] then []
    else
      var init := items[..|items| - 1];
      var prev := Categories(init);
      var c := items[|items| - 1].category;
      assert forall i :: 0 <= i < |init| ==> init[i] == items[i];
      if c in prev then prev else prev + [c]
  }

  /** A category that already occurs before the last item first appears at the same place without it. */
  lemma FirstAppearanceInInit(items: seq<MenuItem>, c: string)
    requires items != []
    requires exists i :: 0 <= i < |items| - 1 && items[i].category == c
    ensures FirstAppearance(items, c) == FirstAppearance(items[..|items| - 1], c) < |items| - 1
  {
    var init := items[..|items| - 1];
    var m :| 0 <= m < |items| - 1 && items[m].category == c;
    assert init[m].category == c;
    var k, k' := FirstAppearance(items, c), FirstAppearance(init, c);
    assert k' < |init| && init[k'] == items[k'];
    forall i | 0 <= i < k' ensures items[i].category != c {
      assert items[i] == init[i];
    }
    assert k <= k';
  }

  /** The categories are listed in the order in which they first appear in the menu. */
  lemma {:induction false} CategoriesInFirstAppearanceOrder(items: seq<MenuItem>)
    ensures forall i, j :: 0 <= i < j < |Categories(items)| ==>
      FirstAppearance(items, Categories(items)[i]) < FirstAppearance(items, Categories(items)[j])
  {
    if items != [] {
      var n := |items|;
      var init := items[..n - 1];
      var prev, r := Categories(init), Categories(items);
      CategoriesInFirstAppearanceOrder(init);
      forall i | 0 <= i < |prev|
        ensures FirstAppearance(items, prev[i]) == FirstAppearance(init, prev[i]) < n - 1
      {
        assert prev[i] in prev;
        var m :| 0 <= m < |init| && init[m].category == prev[i];
        assert items[m] == init[m];
        FirstAppearanceInInit(items, prev[i]);
      }
      var c := items[n - 1].category;
      if c in prev {
        assert r == prev;
      } else {
        assert r == prev + [c];
        forall i | 0 <= i < n - 1 ensures items[i].category != c {
          assert items[i] == init[i];
        }
        assert FirstAppearance(items, c) == n - 1;
        forall i, j | 0 <= i < j < |r|
          ensures FirstAppearance(items, r[i]) < FirstAppearance(items, r[j])
        {
          assert r[i] == prev[i];
          if j < |prev| {
            assert r[j] == prev[j];
          }
        }
      }
    }
  }
}
