/** The home page (src/pages/Home.jsx): the featured row, the hot-deal row and the
    category tiles with their product counts. */
module Home {
  import opened Seqs
  import opened Catalog

  const FeaturedShown: nat := 4
  const HotDealsShown: nat := 3

  function FeaturedTest(): Product -> bool
  {
    (p: Product) => p.featured
  }

  function HotDealTest(): Product -> bool
  {
    (p: Product) => IsHotDeal(p)
  }

  function CategoryTest(categoryId: string): Product -> bool
  {
    (p: Product) => p.category == categoryId
  }

  function NotAll(): Category -> bool
  {
    (c: Category) => c.id != "all"
  }

  /** `featuredProducts`. */
  function FeaturedProducts(catalog: seq<Product>): seq<Product>
  {
    Take(Filter(catalog, FeaturedTest()), FeaturedShown)
  }

  /** `hotDeals`. */
  function HotDeals(catalog: seq<Product>): seq<Product>
  {
    Take(Filter(catalog, HotDealTest()), HotDealsShown)
  }

  /** The category tiles: every category but `all`. */
  function CategoryTiles(categories: seq<Category>): seq<Category>
  {
    Filter(categories, NotAll())
  }

  /** The count on a tile: how many catalog products have that category. */
  function CategoryCount(catalog: seq<Product>, categoryId: string): nat
  {
    |Filter(catalog, CategoryTest(categoryId))|
  }

  /** The featured row is the first four featured products in catalog order (all of
      them when there are fewer). */
  lemma FeaturedProductsSpec(catalog: seq<Product>)
    ensures |FeaturedProducts(catalog)| <= 4
    ensures forall p :: p in FeaturedProducts(catalog) ==> p in catalog && p.featured
    ensures IsSubseq(FeaturedProducts(catalog), catalog)
    ensures exists k :: 0 <= k <= |catalog| && FeaturedProducts(catalog) == Filter(catalog[..k], FeaturedTest())
                        && (k == |catalog| || |FeaturedProducts(catalog)| == 4)
  {
    FirstMatches(catalog, FeaturedTest(), FeaturedShown);
  }

  /** The hot-deal row is the first three products discounted by 30% or more, in
      catalog order (all of them when there are fewer). */
  lemma HotDealsSpec(catalog: seq<Product>)
    ensures |HotDeals(catalog)| <= 3
    ensures forall p :: p in HotDeals(catalog) ==> p in catalog && p.discount >= 30
    ensures IsSubseq(HotDeals(catalog), catalog)
    ensures exists k :: 0 <= k <= |catalog| && HotDeals(catalog) == Filter(catalog[..k], HotDealTest())
                        && (k == |catalog| || |HotDeals(catalog)| == 3)
  {
    FirstMatches(catalog, HotDealTest(), HotDealsShown);
  }

  /** The tiles are the categories other than `all`, in their original order. */
  lemma CategoryTilesSpec(categories: seq<Category>)
    ensures forall c :: c in CategoryTiles(categories) <==> c in categories && c.id != "all"
    ensures IsSubseq(CategoryTiles(categories), categories)
  {
    FilterIsSubseq(categories, NotAll());
  }

  /** The positions of the catalog holding a product of the category. */
  function PositionsIn(catalog: seq<Product>, categoryId: string): set<nat>
  {
    set k: nat | k < |catalog| && catalog[k].category == categoryId
  }

  /** A tile's count is the number of catalog positions holding a product of that
      category. */
  lemma {:induction false} CategoryCountSpec(catalog: seq<Product>, categoryId: string)
    ensures CategoryCount(catalog, categoryId) == |PositionsIn(catalog, categoryId)|
  {
    if catalog == [] {
      assert PositionsIn(catalog, categoryId) == {};
    } else {
      var n := |catalog| - 1;
      var init := catalog[..n];
      var last := catalog[n];
      CategoryCountSpec(init, categoryId);
      assert catalog == init + [last];
      LastFiltered(init, last, categoryId);
      PositionsStep(catalog, categoryId);
    }
  }

  /** Appending one product adds it to the category's filter exactly when it has
      that category. */
  lemma LastFiltered(init: seq<Product>, last: Product, categoryId: string)
    ensures |Filter(init + [last], CategoryTest(categoryId))|
            == |Filter(init, CategoryTest(categoryId))| + (if last.category == categoryId then 1 else 0)
  {
    FilterConcat(init, [last], CategoryTest(categoryId));
    assert [last][1..] == [];
  }

  /** The positions in a non-empty catalog: those of all but the last product, plus
      the last position when its product has the category. */
  lemma PositionsStep(catalog: seq<Product>, categoryId: string)
    requires catalog != []
    ensures |PositionsIn(catalog, categoryId)|
            == |PositionsIn(catalog[..|catalog| - 1], categoryId)|
               + (if catalog[|catalog| - 1].category == categoryId then 1 else 0)
  {
    var n := |catalog| - 1;
    var init := catalog[..n];
    var before, after := PositionsIn(init, categoryId), PositionsIn(catalog, categoryId);
    var last: set<nat> := if catalog[n].category == categoryId then {n} else {};
    forall k: nat
      ensures k in after <==> k in before + last
    {
      if k < n {
        assert init[k] == catalog[k];
      }
    }
    assert after == before + last;
    assert n !in before;
  }
}
