/** The product catalog the pages read. The catalog itself comes from a data module
    that is not part of this model, so every operation takes it as an input sequence.
    Money is in integer cents, so every sum is exact. */
module Catalog {
  import opened Seqs
  import Text

  /** A laptop for sale. `gpu` is `None` for a product without that field. */
  datatype Product = Product(
    id: int,
    name: string,
    brand: string,
    category: string,
    condition: string,
    processor: string,
    ram: string,
    storage: string,
    display: string,
    gpu: Option<string>,
    price: int,          // cents
    originalPrice: int,  // cents
    discount: int,       // percent
    stock: int,
    rating: real,
    featured: bool)

  /** An entry of the category list: an id (`'all'` stands for no restriction) and
      the name shown on screen. */
  datatype Category = Category(id: string, name: string)

  /** The smallest discount, in percent, that makes a product a hot deal. */
  const HotDealDiscount: int := 30

  /** `product.discount >= 30`: the rule behind the "Hot Deal" badge and the home
      page's hot-deal row. */
  predicate IsHotDeal(p: Product)
  {
    p.discount >= HotDealDiscount
  }

  /** `condition.toLowerCase().replace(' ', '-')`: the key of a condition, used both
      as the catalog's condition filter value and as the card's CSS class. */
  function ConditionKey(condition: string): string
  {
    Text.ReplaceFirst(Text.ToLower(condition), ' ', '-')
  }

  /** The condition key keeps the length, has no upper-case letter, and differs from
      the lowercased condition only where its first space becomes `-`; later spaces
      stay. */
  lemma ConditionKeySpec(condition: string)
    ensures |ConditionKey(condition)| == |condition|
    ensures forall i :: 0 <= i < |condition| ==> !('A' <= ConditionKey(condition)[i] <= 'Z')
    ensures ' ' !in condition ==> ConditionKey(condition) == Text.ToLower(condition)
    ensures forall k :: 0 <= k < |condition| && condition[k] == ' ' && ' ' !in condition[..k] ==>
              ConditionKey(condition) == Text.ToLower(condition)[..k] + "-" + Text.ToLower(condition)[k + 1..]
  {
    var lower := Text.ToLower(condition);
    assert forall i :: 0 <= i < |lower| ==> (lower[i] == ' ' <==> condition[i] == ' ');
    if ' ' !in condition {
      assert ' ' !in lower;
      Text.ReplaceFirstAbsent(lower, ' ', '-');
    }
    forall k | 0 <= k < |condition| && condition[k] == ' ' && ' ' !in condition[..k]
      ensures ConditionKey(condition) == lower[..k] + "-" + lower[k + 1..]
    {
      assert forall i :: 0 <= i < k ==> lower[..k][i] == lower[i] && condition[..k][i] == condition[i];
      Text.ReplaceFirstAt(lower, ' ', '-', k);
    }
  }
}
