/** The product card (src/components/ProductCard.jsx): the condition badge's CSS
    class, the Hot Deal badge, the short processor label and the card's own
    add-to-cart button. */
module ProductCard {
  import opened Seqs
  import Text
  import opened Catalog
  import opened Cart
  import Products
  import Home

  /** `conditionClass`: the same key the catalog's condition filter compares, so a
      product is selected by the condition filter exactly when the filter is off or
      lists the card's badge class. */
  function ConditionClass(p: Product): (r: string)
    ensures |r| == |p.condition|
    ensures forall conditions :: Products.PassesCondition(p, conditions) <==> (|conditions| == 0 || r in conditions)
    ensures forall i :: 0 <= i < |r| ==> !('A' <= r[i] <= 'Z')
  {
    ConditionKeySpec(p.condition);
    ConditionKey(p.condition)
  }

  /** The Hot Deal badge is shown exactly for `Catalog.IsHotDeal`, a discount of
      30% or more, so every product of the home page's hot-deal row carries the
      badge on its card. */
  lemma HotDealsShowBadge(catalog: seq<Product>)
    ensures forall p :: p in Home.HotDeals(catalog) ==> IsHotDeal(p) && p.discount >= 30
  {
    Home.HotDealsSpec(catalog);
  }

  /** `processor.split(' ').slice(-1)[0]`: the last space-separated piece. It is a
      suffix of the processor text with no space in it, and either the whole text
      or preceded by a space; a text without a space is its own label, and a text ending in a space gives the empty label. */
  function ProcessorLabel(processor: string): (r: string)
    ensures |r| <= |processor| && r == processor[|processor| - |r|..]
    ensures ' ' !in r
    ensures |r| == |processor| || processor[|processor| - |r| - 1] == ' '
    ensures ' ' !in processor ==> r == processor
  {
    Text.LastPieceOfSplit(processor, ' ');
    var pieces := Text.Split(processor, ' ');
    pieces[|pieces| - 1]
  }

  /** The label is everything after the last space, and the whole text when there
      is no space. */
  lemma ProcessorLabelAfterLastSpace(processor: string, k: nat)
    requires k < |processor| && processor[k] == ' '
    requires forall i :: k < i < |processor| ==> processor[i] != ' '
    ensures ProcessorLabel(processor) == processor[k + 1..]
  {
    var r := ProcessorLabel(processor);
    var start := |processor| - |r|;
    forall i | start <= i < |processor|
      ensures processor[i] != ' '
    {
      assert processor[i] == r[i - start];
    }
    assert start > k;
    assert start == k + 1;
  }

  /** The card's Add to Cart button: `addToCart(product)` with the default quantity
      of one unit. */
  method AddFromCard(cart: CartStore, product: Product)
    requires cart.Valid()
    modifies cart
    ensures cart.Valid()
    ensures cart.items == Added(old(cart.items), product, 1)
    ensures cart.Count() == old(cart.Count()) + 1
    ensures QuantityOf(cart.items, product.id) == QuantityOf(old(cart.items), product.id) + 1
  {
    AddedQuantityOf(cart.items, product, 1, product.id);
    cart.AddToCart(product, 1);
  }
}
