/** The shopping cart held by the application shell (src/App.jsx): an
    insertion-ordered list of line items keyed by product id. Each cart operation
    replaces the list by a value built with `map`, `filter` or spread; the
    functions below are those values, and `CartStore` is the state cell that the
    operations reassign. Persistence to local storage is not part of this model. */
module Cart {
  import opened Seqs
  import opened Catalog

  /** `{...product, quantity}`: the product as it was when added, and how many. */
  datatype LineItem = LineItem(product: Product, quantity: int)

  predicate HasId(items: seq<LineItem>, id: int)
  {
    exists k :: 0 <= k < |items| && items[k].product.id == id
  }

  /** At most one line per product id. */
  predicate UniqueIds(items: seq<LineItem>)
  {
    forall i, j :: 0 <= i < j < |items| ==> items[i].product.id != items[j].product.id
  }

  /** The cart invariant: ids are unique and every quantity is positive. */
  predicate ValidCart(items: seq<LineItem>)
  {
    UniqueIds(items) && forall i :: 0 <= i < |items| ==> items[i].quantity > 0
  }

  /** The list `addToCart(product, quantity)` installs: every line with the product's
      id gains `quantity` when there is one, otherwise a new line is appended. */
  function Added(items: seq<LineItem>, product: Product, quantity: int): seq<LineItem>
  {
    if HasId(items, product.id) then
      seq(|items|, k requires 0 <= k < |items| =>
        if items[k].product.id == product.id
        then items[k].(quantity := items[k].quantity + quantity)
        else items[k])
    else items + [LineItem(product, quantity)]
  }

  /** The list `removeFromCart(id)` installs: `items.filter(item => item.id !== id)`. */
  function Without(items: seq<LineItem>, id: int): seq<LineItem>
  {
    if items == [] then []
    else (if items[0].product.id != id then [items[0]] else []) + Without(items[1..], id)
  }

  /** The list a positive `updateQuantity(id, quantity)` installs: matching lines get
      the new quantity. */
  function WithQuantity(items: seq<LineItem>, id: int, quantity: int): seq<LineItem>
  {
    seq(|items|, k requires 0 <= k < |items| =>
      if items[k].product.id == id then items[k].(quantity := quantity) else items[k])
  }

  /** The list `updateQuantity(id, quantity)` installs: a quantity of zero or less
      removes the product. */
  function Updated(items: seq<LineItem>, id: int, quantity: int): seq<LineItem>
  {
    if quantity <= 0 then Without(items, id) else WithQuantity(items, id, quantity)
  }

  /** `items.reduce((sum, item) => sum + w(item), 0)`, folding from the left. */
  function SumBy(items: seq<LineItem>, w: LineItem -> int): int
  {
    if items == [] then 0 else SumBy(items[..|items| - 1], w) + w(items[|items| - 1])
  }

  function Subtotal(line: LineItem): int
  {
    line.product.price * line.quantity
  }

  function Units(line: LineItem): int
  {
    line.quantity
  }

  /** `cartTotal`: the sum of price times quantity, in cents. */
  function CartTotal(items: seq<LineItem>): int
  {
    SumBy(items, Subtotal)
  }

  /** `cartCount`: the number of units in the cart. */
  function CartCount(items: seq<LineItem>): int
  {
    SumBy(items, Units)
  }

  function UnitsOf(id: int): LineItem -> int
  {
    (line: LineItem) => if line.product.id == id then line.quantity else 0
  }

  /** How many units of product `id` the cart holds. */
  function QuantityOf(items: seq<LineItem>, id: int): int
  {
    SumBy(items, UnitsOf(id))
  }

  lemma {:induction false} SumByConcat(a: seq<LineItem>, b: seq<LineItem>, w: LineItem -> int)
    ensures SumBy(a + b, w) == SumBy(a, w) + SumBy(b, w)
  {
    if b != [] {
      assert (a + b)[..|a + b| - 1] == a + b[..|b| - 1];
      SumByConcat(a, b[..|b| - 1], w);
    } else {
      assert a + b == a;
    }
  }

  lemma SumByOne(x: LineItem, w: LineItem -> int)
    ensures SumBy([x], w) == w(x)
  {
    assert [x][..0] == [];
  }

  /** A sum over `pre + [x] + post` is the two sides' sums plus `x`'s weight. */
  lemma SumBySplit(pre: seq<LineItem>, x: LineItem, post: seq<LineItem>, w: LineItem -> int)
    ensures SumBy(pre + [x] + post, w) == SumBy(pre, w) + w(x) + SumBy(post, w)
  {
    SumByConcat(pre + [x], post, w);
    SumByConcat(pre, [x], w);
    SumByOne(x, w);
  }

  /** Replacing one line changes a sum by the difference of the two lines' weights. */
  lemma SumByUpdate(s: seq<LineItem>, k: nat, x: LineItem, w: LineItem -> int)
    requires k < |s|
    ensures SumBy(s[k := x], w) == SumBy(s, w) - w(s[k]) + w(x)
  {
    var pre, post := s[..k], s[k + 1..];
    assert s == pre + [s[k]] + post;
    assert s[k := x] == pre + [x] + post;
    SumBySplit(pre, s[k], post, w);
    SumBySplit(pre, x, post, w);
  }

  /** Deleting one line takes its weight off a sum. */
  lemma SumByRemove(s: seq<LineItem>, k: nat, w: LineItem -> int)
    requires k < |s|
    ensures SumBy(s[..k] + s[k + 1..], w) == SumBy(s, w) - w(s[k])
  {
    var pre, post := s[..k], s[k + 1..];
    assert s[..k + 1] == pre + [s[k]];
    assert s == s[..k + 1] + post;
    SumByDrop(pre, s[k], post, w);
  }

  lemma SumByDrop(pre: seq<LineItem>, x: LineItem, post: seq<LineItem>, w: LineItem -> int)
    ensures SumBy(pre + post, w) == SumBy(pre + [x] + post, w) - w(x)
  {
    SumBySplit(pre, x, post, w);
    SumByConcat(pre, post, w);
  }

  /** In a cart with unique ids, a product whose id is at position k is nowhere else. */
  lemma OnlyAt(items: seq<LineItem>, k: nat)
    requires UniqueIds(items) && k < |items|
    ensures forall j :: 0 <= j < |items| && items[j].product.id == items[k].product.id ==> j == k
  {
  }

  /** addToCart of a product whose id is at position k raises that one line's
      quantity in place. */
  lemma AddedAt(items: seq<LineItem>, product: Product, quantity: int, k: nat)
    requires UniqueIds(items) && k < |items| && items[k].product.id == product.id
    ensures Added(items, product, quantity) == items[k := items[k].(quantity := items[k].quantity + quantity)]
  {
    OnlyAt(items, k);
  }

  /** addToCart: a product already in the cart raises that one line's quantity in
      place (length, order and every other line unchanged); a new product is
      appended as exactly one line at the end. */
  lemma AddedShape(items: seq<LineItem>, product: Product, quantity: int)
    requires UniqueIds(items)
    ensures !HasId(items, product.id) ==> Added(items, product, quantity) == items + [LineItem(product, quantity)]
    ensures forall k :: 0 <= k < |items| && items[k].product.id == product.id ==>
              Added(items, product, quantity) == items[k := items[k].(quantity := items[k].quantity + quantity)]
  {
    forall k | 0 <= k < |items| && items[k].product.id == product.id
      ensures Added(items, product, quantity) == items[k := items[k].(quantity := items[k].quantity + quantity)]
    {
      AddedAt(items, product, quantity, k);
    }
  }

  /** addToCart keeps ids unique, whatever the quantity. */
  lemma AddedUnique(items: seq<LineItem>, product: Product, quantity: int)
    requires UniqueIds(items)
    ensures UniqueIds(Added(items, product, quantity))
  {
    AddedShape(items, product, quantity);
    var r := Added(items, product, quantity);
    if !HasId(items, product.id) {
      forall i, j | 0 <= i < j < |r| ensures r[i].product.id != r[j].product.id {
        if j == |items| {
          assert r[i] == items[i];
        } else {
          assert r[i] == items[i] && r[j] == items[j];
        }
      }
    }
  }

  /** addToCart with a positive quantity also keeps every quantity positive. */
  lemma AddedValid(items: seq<LineItem>, product: Product, quantity: int)
    requires ValidCart(items) && quantity > 0
    ensures ValidCart(Added(items, product, quantity))
  {
    AddedShape(items, product, quantity);
    AddedUnique(items, product, quantity);
  }

  /** addToCart raises the unit count by `quantity` and the total by `quantity` times
      the price of the line that receives them: the price snapshot already in the
      cart, or the product's price for a new line. */
  lemma AddedTotals(items: seq<LineItem>, product: Product, quantity: int)
    requires UniqueIds(items)
    ensures CartCount(Added(items, product, quantity)) == CartCount(items) + quantity
    ensures !HasId(items, product.id) ==>
              CartTotal(Added(items, product, quantity)) == CartTotal(items) + product.price * quantity
    ensures forall k :: 0 <= k < |items| && items[k].product.id == product.id ==>
              CartTotal(Added(items, product, quantity)) == CartTotal(items) + items[k].product.price * quantity
  {
    if HasId(items, product.id) {
      var k :| 0 <= k < |items| && items[k].product.id == product.id;
      BumpedTotals(items, product, quantity, k);
      OnlyAt(items, k);
    } else {
      AppendedTotals(items, product, quantity);
    }
  }

  /** The totals after raising the line at position k. */
  lemma BumpedTotals(items: seq<LineItem>, product: Product, quantity: int, k: nat)
    requires UniqueIds(items) && k < |items| && items[k].product.id == product.id
    ensures CartCount(Added(items, product, quantity)) == CartCount(items) + quantity
    ensures CartTotal(Added(items, product, quantity)) == CartTotal(items) + items[k].product.price * quantity
  {
    AddedAt(items, product, quantity, k);
    var bumped := items[k].(quantity := items[k].quantity + quantity);
    SumByUpdate(items, k, bumped, Units);
    SumByUpdate(items, k, bumped, Subtotal);
    assert Subtotal(bumped) - Subtotal(items[k]) == items[k].product.price * quantity;
  }

  /** The totals after appending a new line. */
  lemma AppendedTotals(items: seq<LineItem>, product: Product, quantity: int)
    requires !HasId(items, product.id)
    ensures CartCount(Added(items, product, quantity)) == CartCount(items) + quantity
    ensures CartTotal(Added(items, product, quantity)) == CartTotal(items) + product.price * quantity
  {
    var line := LineItem(product, quantity);
    assert Added(items, product, quantity) == items + [line];
    SumByConcat(items, [line], Units);
    SumByConcat(items, [line], Subtotal);
    SumByOne(line, Units);
    SumByOne(line, Subtotal);
  }

  /** addToCart adds `quantity` units of that product and none of any other. */
  lemma AddedQuantityOf(items: seq<LineItem>, product: Product, quantity: int, id: int)
    requires UniqueIds(items)
    ensures QuantityOf(Added(items, product, quantity), id)
            == QuantityOf(items, id) + (if id == product.id then quantity else 0)
  {
    if HasId(items, product.id) {
      var k :| 0 <= k < |items| && items[k].product.id == product.id;
      AddedAt(items, product, quantity, k);
      SumByUpdate(items, k, items[k].(quantity := items[k].quantity + quantity), UnitsOf(id));
    } else {
      var line := LineItem(product, quantity);
      assert Added(items, product, quantity) == items + [line];
      SumByConcat(items, [line], UnitsOf(id));
      assert [line][..0] == [];
    }
  }

  lemma {:induction false} WithoutAbsent(items: seq<LineItem>, id: int)
    requires !HasId(items, id)
    ensures Without(items, id) == items
  {
    if items != [] {
      forall k | 0 <= k < |items| - 1 ensures items[1..][k].product.id != id {
        assert items[1..][k] == items[k + 1];
      }
      WithoutAbsent(items[1..], id);
    }
  }

  lemma {:induction false} WithoutConcat(a: seq<LineItem>, b: seq<LineItem>, id: int)
    ensures Without(a + b, id) == Without(a, id) + Without(b, id)
  {
    if a == [] {
      assert a + b == b;
    } else {
      assert (a + b)[1..] == a[1..] + b;
      WithoutConcat(a[1..], b, id);
    }
  }

  /** removeFromCart keeps the other lines in order and deletes every line with the id. */
  lemma {:induction false} WithoutFilters(items: seq<LineItem>, id: int)
    ensures IsSubseq(Without(items, id), items)
    ensures !HasId(Without(items, id), id)
    ensures forall x :: x in items && x.product.id != id ==> x in Without(items, id)
  {
    if items != [] {
      WithoutFilters(items[1..], id);
      var r := Without(items, id);
      var rest := Without(items[1..], id);
      if items[0].product.id != id {
        assert r == [items[0]] + rest;
        assert r[0] == items[0] && r[1..] == rest;
        forall k | 0 <= k < |r| ensures r[k].product.id != id {
          if k > 0 {
            assert r[k] == rest[k - 1];
          }
        }
      } else {
        assert r == rest;
      }
    }
  }

  /** removeFromCart on a cart with unique ids: a no-op when the id is absent, and
      otherwise exactly the one line with that id disappears. */
  lemma WithoutShape(items: seq<LineItem>, id: int)
    requires UniqueIds(items)
    ensures !HasId(items, id) ==> Without(items, id) == items
    ensures forall k :: 0 <= k < |items| && items[k].product.id == id ==>
              Without(items, id) == items[..k] + items[k + 1..]
  {
    if !HasId(items, id) {
      WithoutAbsent(items, id);
    }
    forall k | 0 <= k < |items| && items[k].product.id == id
      ensures Without(items, id) == items[..k] + items[k + 1..]
    {
      WithoutAt(items, k);
    }
  }

  lemma WithoutAt(items: seq<LineItem>, k: nat)
    requires UniqueIds(items) && k < |items|
    ensures Without(items, items[k].product.id) == items[..k] + items[k + 1..]
  {
    var x, pre, post := items[k], items[..k], items[k + 1..];
    assert items[..k + 1] == pre + [x];
    assert items == items[..k + 1] + post;
    IdNotElsewhere(items, k);
    WithoutMid(pre, x, post);
  }

  /** With unique ids, the id at position k occurs neither before nor after it. */
  lemma IdNotElsewhere(items: seq<LineItem>, k: nat)
    requires UniqueIds(items) && k < |items|
    ensures !HasId(items[..k], items[k].product.id) && !HasId(items[k + 1..], items[k].product.id)
  {
    var id, pre, post := items[k].product.id, items[..k], items[k + 1..];
    forall j | 0 <= j < |pre| ensures pre[j].product.id != id {
      assert pre[j] == items[j];
    }
    forall j | 0 <= j < |post| ensures post[j].product.id != id {
      assert post[j] == items[k + 1 + j];
    }
  }

  /** Deleting the id of a line that occurs nowhere else removes just that line. */
  lemma WithoutMid(pre: seq<LineItem>, x: LineItem, post: seq<LineItem>)
    requires !HasId(pre, x.product.id) && !HasId(post, x.product.id)
    ensures Without(pre + [x] + post, x.product.id) == pre + post
  {
    var id := x.product.id;
    calc {
      Without(pre + [x] + post, id);
      { WithoutConcat(pre + [x], post, id); }
      Without(pre + [x], id) + Without(post, id);
      { WithoutConcat(pre, [x], id); }
      Without(pre, id) + Without([x], id) + Without(post, id);
      { WithoutAbsent(pre, id); WithoutAbsent(post, id); WithoutOne(x); }
      pre + [] + post;
      { assert pre + [] == pre; }
      pre + post;
    }
  }

  lemma WithoutOne(x: LineItem)
    ensures Without([x], x.product.id) == []
  {
    assert [x][1..] == [];
  }

  /** Deleting one line keeps ids unique and quantities positive. */
  lemma RemoveAtValid(items: seq<LineItem>, k: nat)
    requires ValidCart(items) && k < |items|
    ensures ValidCart(items[..k] + items[k + 1..])
  {
    var r := items[..k] + items[k + 1..];
    forall i, j | 0 <= i < j < |r| ensures r[i].product.id != r[j].product.id {
      var i' := if i < k then i else i + 1;
      var j' := if j < k then j else j + 1;
      assert r[i] == items[i'] && r[j] == items[j'];
    }
    forall i | 0 <= i < |r| ensures r[i].quantity > 0 {
      assert r[i] == items[if i < k then i else i + 1];
    }
  }

  /** removeFromCart keeps the cart invariant and takes the removed line's units
      and subtotal off the totals. */
  lemma WithoutTotals(items: seq<LineItem>, id: int)
    requires ValidCart(items)
    ensures ValidCart(Without(items, id))
    ensures !HasId(items, id) ==> CartTotal(Without(items, id)) == CartTotal(items)
    ensures forall k :: 0 <= k < |items| && items[k].product.id == id ==>
              CartTotal(Without(items, id)) == CartTotal(items) - Subtotal(items[k])
              && CartCount(Without(items, id)) == CartCount(items) - items[k].quantity
  {
    if HasId(items, id) {
      var k :| 0 <= k < |items| && items[k].product.id == id;
      WithoutAt(items, k);
      SumByRemove(items, k, Subtotal);
      SumByRemove(items, k, Units);
      RemoveAtValid(items, k);
      OnlyAt(items, k);
    } else {
      WithoutAbsent(items, id);
    }
  }

  /** updateQuantity: zero or less is removeFromCart; a positive quantity replaces
      the quantity of the one matching line in place, or does nothing when the id
      is absent. Either way the cart invariant is kept. */
  lemma UpdatedShape(items: seq<LineItem>, id: int, quantity: int)
    requires ValidCart(items)
    ensures quantity <= 0 ==> Updated(items, id, quantity) == Without(items, id)
    ensures quantity > 0 && !HasId(items, id) ==> Updated(items, id, quantity) == items
    ensures quantity > 0 ==> forall k :: 0 <= k < |items| && items[k].product.id == id ==>
              Updated(items, id, quantity) == items[k := items[k].(quantity := quantity)]
              && CartCount(Updated(items, id, quantity)) == CartCount(items) - items[k].quantity + quantity
              && CartTotal(Updated(items, id, quantity))
                 == CartTotal(items) + items[k].product.price * (quantity - items[k].quantity)
    ensures ValidCart(Updated(items, id, quantity))
  {
    if quantity <= 0 {
      WithoutTotals(items, id);
    } else {
      forall k | 0 <= k < |items| && items[k].product.id == id
        ensures Updated(items, id, quantity) == items[k := items[k].(quantity := quantity)]
        ensures CartCount(Updated(items, id, quantity)) == CartCount(items) - items[k].quantity + quantity
        ensures CartTotal(Updated(items, id, quantity))
                == CartTotal(items) + items[k].product.price * (quantity - items[k].quantity)
      {
        OnlyAt(items, k);
        UpdatedTotals(items, k, quantity);
      }
    }
  }

  /** The totals after setting the quantity of the line at position k. */
  lemma UpdatedTotals(items: seq<LineItem>, k: nat, quantity: int)
    requires k < |items|
    ensures CartCount(items[k := items[k].(quantity := quantity)]) == CartCount(items) - items[k].quantity + quantity
    ensures CartTotal(items[k := items[k].(quantity := quantity)])
            == CartTotal(items) + items[k].product.price * (quantity - items[k].quantity)
  {
    var line := items[k].(quantity := quantity);
    SumByUpdate(items, k, line, Units);
    SumByUpdate(items, k, line, Subtotal);
    assert Subtotal(line) - Subtotal(items[k]) == items[k].product.price * (quantity - items[k].quantity);
  }

  /** The cart store: `cartItems` and the operations that replace it. */
  class CartStore {
    var items: seq<LineItem>

    ghost predicate Valid()
      reads this
    {
      ValidCart(items)
    }

    /** A store with no saved cart starts empty. */
    constructor ()
      ensures Valid() && items == []
    {
      items := [];
    }

    /** `cartTotal`. */
    function Total(): int
      reads this
    {
      CartTotal(items)
    }

    /** `cartCount`. */
    function Count(): int
      reads this
    {
      CartCount(items)
    }

    /** `addToCart`. The source accepts any quantity; the cart invariant survives
        exactly the positive ones, which are all its callers pass. */
    method AddToCart(product: Product, quantity: int)
      requires Valid()
      modifies this
      ensures UniqueIds(items)
      ensures quantity > 0 ==> Valid()
      ensures items == Added(old(items), product, quantity)
      ensures Count() == old(Count()) + quantity
    {
      AddedUnique(items, product, quantity);
      if quantity > 0 {
        AddedValid(items, product, quantity);
      }
      AddedTotals(items, product, quantity);
      items := Added(items, product, quantity);
    }

    method RemoveFromCart(id: int)
      requires Valid()
      modifies this
      ensures Valid()
      ensures items == Without(old(items), id)
      ensures !HasId(items, id) && IsSubseq(items, old(items))
    {
      WithoutTotals(items, id);
      WithoutFilters(items, id);
      items := Without(items, id);
    }

    method UpdateQuantity(id: int, quantity: int)
      requires Valid()
      modifies this
      ensures Valid()
      ensures items == Updated(old(items), id, quantity)
    {
      if quantity <= 0 {
        RemoveFromCart(id);
        return;
      }
      UpdatedShape(items, id, quantity);
      items := WithQuantity(items, id, quantity);
    }

    method ClearCart()
      requires Valid()
      modifies this
      ensures Valid() && items == []
      ensures Total() == 0 && Count() == 0
    {
      items := [];
    }
  }
}
