/** The wishlist page (src/pages/Wishlist.jsx): a demonstration list of products
    that can be removed one at a time, moved to the cart one at a time or all at
    once, or cleared. */
module Wishlist {
  import opened Seqs
  import opened Catalog
  import opened Cart

  function OtherId(id: int): Product -> bool
  {
    (p: Product) => p.id != id
  }

  /** The cart after `addToCart(p)` (quantity 1) for each product of `ps` in turn. */
  function AddedEach(items: seq<LineItem>, ps: seq<Product>): seq<LineItem>
  {
    if ps == [] then items else Added(AddedEach(items, ps[..|ps| - 1]), ps[|ps| - 1], 1)
  }

  /** How many products of `ps` have the id. */
  function CountId(ps: seq<Product>, id: int): nat
  {
    if ps == [] then 0 else CountId(ps[..|ps| - 1], id) + (if ps[|ps| - 1].id == id then 1 else 0)
  }

  /** Adding each product of `ps` once keeps the cart valid, adds |ps| units in all,
      and adds to each product exactly as many units as `ps` names it. */
  lemma {:induction false} AddedEachSpec(items: seq<LineItem>, ps: seq<Product>, id: int)
    requires ValidCart(items)
    ensures ValidCart(AddedEach(items, ps))
    ensures CartCount(AddedEach(items, ps)) == CartCount(items) + |ps|
    ensures QuantityOf(AddedEach(items, ps), id) == QuantityOf(items, id) + CountId(ps, id)
  {
    if ps != [] {
      var init := ps[..|ps| - 1];
      AddedEachSpec(items, init, id);
      AddedValid(AddedEach(items, init), ps[|ps| - 1], 1);
      AddedTotals(AddedEach(items, init), ps[|ps| - 1], 1);
      AddedQuantityOf(AddedEach(items, init), ps[|ps| - 1], 1, id);
    }
  }

  /** In a list whose ids are distinct, each listed product's id occurs once. */
  lemma {:induction false} CountIdDistinct(ps: seq<Product>, k: nat)
    requires k < |ps|
    requires forall i, j :: 0 <= i < j < |ps| ==> ps[i].id != ps[j].id
    ensures CountId(ps, ps[k].id) == 1
  {
    var n := |ps|;
    if k == n - 1 {
      CountIdAbsent(ps[..n - 1], ps[k].id);
    } else {
      CountIdDistinct(ps[..n - 1], k);
    }
  }

  lemma {:induction false} CountIdAbsent(ps: seq<Product>, id: int)
    requires forall i :: 0 <= i < |ps| ==> ps[i].id != id
    ensures CountId(ps, id) == 0
  {
    if ps != [] {
      CountIdAbsent(ps[..|ps| - 1], id);
    }
  }

  /** Once the entry at position i has been moved, what is left of the list lies
      after it. */
  lemma RemovedHead(items: seq<Product>, snapshot: seq<Product>, i: nat)
    requires i < |snapshot| && forall p :: p in items ==> p in snapshot[i..]
    ensures forall p :: p in Filter(items, OtherId(snapshot[i].id)) ==> p in snapshot[i + 1..]
  {
    assert snapshot[i..] == [snapshot[i]] + snapshot[i + 1..];
  }

  /** A non-empty list whose entries all lie in `rest` needs a non-empty `rest`. */
  lemma LeftoverIn(items: seq<Product>, rest: seq<Product>)
    requires forall p :: p in items ==> p in rest
    ensures items != [] ==> rest != []
  {
    if items != [] {
      assert items[0] in rest;
    }
  }

  class WishlistPage {
    var items: seq<Product>

    /** The demonstration list: catalog entries 0, 2 and 4, in that order. */
    constructor (catalog: seq<Product>)
      requires |catalog| >= 5
      ensures items == [catalog[0], catalog[2], catalog[4]]
    {
      items := [catalog[0], catalog[2], catalog[4]];
    }

    /** `removeFromWishlist`: every entry with the id goes, the rest keep their order. */
    method Remove(productId: int)
      modifies this
      ensures items == Filter(old(items), OtherId(productId))
      ensures IsSubseq(items, old(items))
      ensures forall p :: p in items <==> p in old(items) && p.id != productId
    {
      FilterIsSubseq(items, OtherId(productId));
      items := Filter(items, OtherId(productId));
    }

    /** `handleAddToCart`: one unit to the cart, then off the wishlist. */
    method MoveToCart(cart: CartStore, product: Product)
      requires cart.Valid()
      modifies this, cart
      ensures cart.Valid()
      ensures cart.items == Added(old(cart.items), product, 1)
      ensures items == Filter(old(items), OtherId(product.id))
    {
      cart.AddToCart(product, 1);
      Remove(product.id);
    }

    /** Add All: `handleAddToCart` on each entry in list order. Every entry reaches
        the cart and the wishlist ends empty. */
    method AddAll(cart: CartStore)
      requires cart.Valid()
      modifies this, cart
      ensures cart.Valid()
      ensures cart.items == AddedEach(old(cart.items), old(items))
      ensures items == []
    {
      var snapshot := items;
      var i := 0;
      while i < |snapshot|
        invariant 0 <= i <= |snapshot|
        invariant cart.Valid()
        invariant cart.items == AddedEach(old(cart.items), snapshot[..i])
        invariant forall p :: p in items ==> p in snapshot[i..]
      {
        assert snapshot[..i + 1][..i] == snapshot[..i];
        ghost var before := items;
        MoveToCart(cart, snapshot[i]);
        RemovedHead(before, snapshot, i);
        i := i + 1;
      }
      assert snapshot[..i] == snapshot;
      LeftoverIn(items, snapshot[i..]);

    }

    /** Clear Wishlist. */
    method Clear()
      modifies this
      ensures items == [] && IsEmpty()
    {
      items := [];
    }

    /** An empty wishlist shows the empty-state message instead of the list. */
    predicate IsEmpty()
      reads this
    {
      |items| == 0
    }
  }

  /** Add All on a list with distinct ids puts one more unit of each listed product
      in the cart, and no unit of anything else. */
  lemma AddAllQuantities(items: seq<LineItem>, ps: seq<Product>, id: int)
    requires ValidCart(items)
    requires forall i, j :: 0 <= i < j < |ps| ==> ps[i].id != ps[j].id
    ensures (exists k :: 0 <= k < |ps| && ps[k].id == id) ==>
              QuantityOf(AddedEach(items, ps), id) == QuantityOf(items, id) + 1
    ensures (forall k :: 0 <= k < |ps| ==> ps[k].id != id) ==>
              QuantityOf(AddedEach(items, ps), id) == QuantityOf(items, id)
  {
    AddedEachSpec(items, ps, id);
    if exists k :: 0 <= k < |ps| && ps[k].id == id {
      var k :| 0 <= k < |ps| && ps[k].id == id;
      CountIdDistinct(ps, k);
    } else {
      CountIdAbsent(ps, id);
    }
  }
}
