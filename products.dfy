/** The catalog page (src/pages/Products.jsx): the filter state, the query that
    narrows the catalog by search text, category, brands, conditions and price, and
    then orders it with a stable sort; plus the filter toggles, the reset, the
    active-filter badge and the price inputs. */
module Products {
  import opened Seqs
  import opened Catalog
  import Text
  import opened StableSort

  /** The filter panel's state. The price bounds are whole dollars, as typed. */
  datatype Filters = Filters(
    category: string,
    brand: seq<string>,
    condition: seq<string>,
    minPrice: int,
    maxPrice: int,
    sortBy: string)

  /** The upper price bound the panel starts with and falls back to, in dollars. */
  const DefaultMaxPrice: int := 3500

  /** The filters the page starts with; `categoryParam` is the `category` URL
      parameter, where the empty string stands for a missing one. */
  function InitialFilters(categoryParam: string): (f: Filters)
    ensures f.brand == [] && f.condition == [] && f.minPrice == 0 && f.maxPrice == DefaultMaxPrice
    ensures f.sortBy == "featured"
    ensures f.category == (if categoryParam == "" then "all" else categoryParam)
    ensures ActiveFilterCount(f) == if categoryParam == "" || categoryParam == "all" then 0 else 1
  {
    Filters(if categoryParam == "" then "all" else categoryParam, [], [], 0, DefaultMaxPrice, "featured")
  }

  /** The lowercased name, brand or processor contains the lowercased query. */
  predicate MatchesSearch(p: Product, query: string)
  {
    var q := Text.ToLower(query);
    Text.Contains(Text.ToLower(p.name), q)
    || Text.Contains(Text.ToLower(p.brand), q)
    || Text.Contains(Text.ToLower(p.processor), q)
  }

  predicate PassesSearch(p: Product, query: string)
  {
    query != "" ==> MatchesSearch(p, query)
  }

  predicate PassesCategory(p: Product, category: string)
  {
    category != "all" ==> p.category == category
  }

  predicate PassesBrand(p: Product, brands: seq<string>)
  {
    |brands| > 0 ==> p.brand in brands
  }

  predicate PassesCondition(p: Product, conditions: seq<string>)
  {
    |conditions| > 0 ==> ConditionKey(p.condition) in conditions
  }

  /** Inclusive at both ends; the price is in cents and the bounds in dollars. */
  predicate PassesPrice(p: Product, minPrice: int, maxPrice: int)
  {
    minPrice * 100 <= p.price <= maxPrice * 100
  }

  /** A product is listed when it passes every active filter. */
  predicate Passes(p: Product, filters: Filters, query: string)
  {
    PassesSearch(p, query) && PassesCategory(p, filters.category)
    && PassesBrand(p, filters.brand) && PassesCondition(p, filters.condition)
    && PassesPrice(p, filters.minPrice, filters.maxPrice)
  }

  function PassesTest(filters: Filters, query: string): Product -> bool
  {
    (p: Product) => Passes(p, filters, query)
  }

  function SearchTest(query: string): Product -> bool
  {
    (p: Product) => MatchesSearch(p, query)
  }

  function CategoryTest(category: string): Product -> bool
  {
    (p: Product) => p.category == category
  }

  function BrandTest(brands: seq<string>): Product -> bool
  {
    (p: Product) => p.brand in brands
  }

  function ConditionTest(conditions: seq<string>): Product -> bool
  {
    (p: Product) => ConditionKey(p.condition) in conditions
  }

  function PriceTest(minPrice: int, maxPrice: int): Product -> bool
  {
    (p: Product) => PassesPrice(p, minPrice, maxPrice)
  }

  /** `b.featured - a.featured` sorts featured products first. */
  function FeaturedKey(p: Product): real
  {
    if p.featured then -1.0 else 0.0
  }

  function PriceKey(p: Product): real
  {
    p.price as real
  }

  function NegatedPriceKey(p: Product): real
  {
    -(p.price as real)
  }

  function NegatedRatingKey(p: Product): real
  {
    -p.rating
  }

  function NegatedDiscountKey(p: Product): real
  {
    -(p.discount as real)
  }

  /** The ascending key each `sortBy` value's comparator is the difference of; any
      value other than the four named ones falls to the `featured` arm. */
  function SortKey(sortBy: string): Product -> real
  {
    if sortBy == "price-low" then PriceKey
    else if sortBy == "price-high" then NegatedPriceKey
    else if sortBy == "rating" then NegatedRatingKey
    else if sortBy == "discount" then NegatedDiscountKey
    else FeaturedKey
  }

  /** What the page lists: the products that pass every filter, in catalog order,
      stably sorted by the chosen key. */
  function Query(catalog: seq<Product>, filters: Filters, query: string): seq<Product>
  {
    InsertionSort(Filter(catalog, PassesTest(filters, query)), SortKey(filters.sortBy))
  }

  /** The filtering half of `filteredProducts`: each active filter narrows
      `result` in turn. */
  method Narrow(catalog: seq<Product>, filters: Filters, searchQuery: string)
    returns (result: seq<Product>)
    ensures result == Filter(catalog, PassesTest(filters, searchQuery))
  {
    ghost var all := (p: Product) => true;
    ghost var h1 := (p: Product) => PassesSearch(p, searchQuery);
    ghost var h2 := (p: Product) => PassesSearch(p, searchQuery) && PassesCategory(p, filters.category);
    ghost var h3 := (p: Product) => PassesSearch(p, searchQuery) && PassesCategory(p, filters.category)
                                    && PassesBrand(p, filters.brand);
    ghost var h4 := (p: Product) => PassesSearch(p, searchQuery) && PassesCategory(p, filters.category)
                                    && PassesBrand(p, filters.brand) && PassesCondition(p, filters.condition);
    result := catalog;
    FilterAll(catalog, all);
    FilterStage(catalog, all, searchQuery != "", SearchTest(searchQuery), h1);
    if searchQuery != "" {
      result := Filter(result, SearchTest(searchQuery));
    }
    assert result == Filter(catalog, h1);
    FilterStage(catalog, h1, filters.category != "all", CategoryTest(filters.category), h2);
    if filters.category != "all" {
      result := Filter(result, CategoryTest(filters.category));
    }
    assert result == Filter(catalog, h2);
    FilterStage(catalog, h2, |filters.brand| > 0, BrandTest(filters.brand), h3);
    if |filters.brand| > 0 {
      result := Filter(result, BrandTest(filters.brand));
    }
    assert result == Filter(catalog, h3);
    FilterStage(catalog, h3, |filters.condition| > 0, ConditionTest(filters.condition), h4);
    if |filters.condition| > 0 {
      result := Filter(result, ConditionTest(filters.condition));
    }
    assert result == Filter(catalog, h4);
    FilterStage(catalog, h4, true, PriceTest(filters.minPrice, filters.maxPrice), PassesTest(filters, searchQuery));
    result := Filter(result, PriceTest(filters.minPrice, filters.maxPrice));
  }

  /** `filteredProducts`: the narrowed list is copied into an array and sorted in
      place by the chosen key. */
  method FilteredProducts(catalog: seq<Product>, filters: Filters, searchQuery: string)
    returns (result: seq<Product>)
    ensures result == Query(catalog, filters, searchQuery)
  {
    var narrowed := Narrow(catalog, filters, searchQuery);
    var a := new Product[|narrowed|](i requires 0 <= i < |narrowed| => narrowed[i]);
    assert a[..] == narrowed;
    InsertionSortInPlace(a, SortKey(filters.sortBy));
    result := a[..];
  }

  /** Every listed product is a catalog product that passes every active filter,
      and every such product is listed; a product is listed at most as often as
      the catalog holds it. */
  lemma QueryMembers(catalog: seq<Product>, filters: Filters, query: string)
    ensures forall p :: p in Query(catalog, filters, query) ==> p in catalog && Passes(p, filters, query)
    ensures forall p :: p in catalog && Passes(p, filters, query) ==> p in Query(catalog, filters, query)
    ensures multiset(Query(catalog, filters, query)) == multiset(Filter(catalog, PassesTest(filters, query)))
    ensures multiset(Query(catalog, filters, query)) <= multiset(catalog)
  {
    SortedFilterMembers(catalog, PassesTest(filters, query), SortKey(filters.sortBy));
  }

  /** A sorted filter holds exactly the elements that pass, no more often than the
      input holds them. */
  lemma SortedFilterMembers<T>(s: seq<T>, f: T -> bool, key: T -> real)
    ensures forall x :: x in InsertionSort(Filter(s, f), key) ==> x in s && f(x)
    ensures forall x :: x in s && f(x) ==> x in InsertionSort(Filter(s, f), key)
    ensures multiset(InsertionSort(Filter(s, f), key)) == multiset(Filter(s, f))
    ensures multiset(InsertionSort(Filter(s, f), key)) <= multiset(s)
  {
    var narrowed := Filter(s, f);
    var r := InsertionSort(narrowed, key);
    SortPermutes(narrowed, key);
    FilterMultiset(s, f);
    forall x | x in r ensures x in s && f(x) {
      assert x in multiset(r);
    }
    forall x | x in s && f(x) ensures x in r {
      assert x in multiset(narrowed);
    }
  }

  /** `price-low` lists prices in non-decreasing order; `price-high`, `rating` and
      `discount` list their field in non-increasing order; `featured` and every
      other value list all featured products before all others. */
  lemma QueryOrder(catalog: seq<Product>, filters: Filters, query: string)
    ensures var r := Query(catalog, filters, query);
      && (filters.sortBy == "price-low" ==> forall i, j :: 0 <= i < j < |r| ==> r[i].price <= r[j].price)
      && (filters.sortBy == "price-high" ==> forall i, j :: 0 <= i < j < |r| ==> r[i].price >= r[j].price)
      && (filters.sortBy == "rating" ==> forall i, j :: 0 <= i < j < |r| ==> r[i].rating >= r[j].rating)
      && (filters.sortBy == "discount" ==> forall i, j :: 0 <= i < j < |r| ==> r[i].discount >= r[j].discount)
      && (filters.sortBy !in ["price-low", "price-high", "rating", "discount"] ==>
            forall i, j :: 0 <= i < j < |r| && r[j].featured ==> r[i].featured)
  {
    var key := SortKey(filters.sortBy);
    SortSorted(Filter(catalog, PassesTest(filters, query)), key);
    var r := Query(catalog, filters, query);
    assert forall i, j :: 0 <= i < j < |r| ==> key(r[i]) <= key(r[j]);
  }

  /** Stability: products that tie on the sort key keep their catalog order. */
  lemma QueryStable(catalog: seq<Product>, filters: Filters, query: string, v: real)
    ensures var key := SortKey(filters.sortBy);
            WithKey(Query(catalog, filters, query), key, v)
            == WithKey(Filter(catalog, PassesTest(filters, query)), key, v)
  {
    SortStable(Filter(catalog, PassesTest(filters, query)), SortKey(filters.sortBy), v);
  }

  /** Under `featured` or an unknown sort value the list is the featured products
      that pass, in catalog order, followed by the other products that pass, in
      catalog order. */
  lemma QueryFeaturedFirst(catalog: seq<Product>, filters: Filters, query: string)
    requires filters.sortBy !in ["price-low", "price-high", "rating", "discount"]
    ensures var narrowed := Filter(catalog, PassesTest(filters, query));
            Query(catalog, filters, query)
            == WithKey(narrowed, FeaturedKey, -1.0) + WithKey(narrowed, FeaturedKey, 0.0)
  {
    var narrowed := Filter(catalog, PassesTest(filters, query));
    var r := Query(catalog, filters, query);
    assert SortKey(filters.sortBy) == FeaturedKey;
    SortSorted(narrowed, FeaturedKey);
    SortedTwoKeys(r, FeaturedKey, -1.0, 0.0);
    SortStable(narrowed, FeaturedKey, -1.0);
    SortStable(narrowed, FeaturedKey, 0.0);
  }

  /** With no search text, category `all`, no brand, no condition and a price range
      that admits every catalog price, nothing is filtered out. */
  lemma QueryUnrestricted(catalog: seq<Product>, filters: Filters)
    requires filters.category == "all" && filters.brand == [] && filters.condition == []
    requires forall p :: p in catalog ==> PassesPrice(p, filters.minPrice, filters.maxPrice)
    ensures Query(catalog, filters, "") == InsertionSort(catalog, SortKey(filters.sortBy))
  {
    FilterAll(catalog, PassesTest(filters, ""));
  }

  /** Both price bounds are inclusive, so a minimum above the maximum lists nothing. */
  lemma QueryEmptyRange(catalog: seq<Product>, filters: Filters, query: string)
    requires filters.minPrice > filters.maxPrice
    ensures Query(catalog, filters, query) == []
  {
    FilterNone(catalog, PassesTest(filters, query));
  }

  lemma ToLowerIdempotent(s: string)
    ensures Text.ToLower(Text.ToLower(s)) == Text.ToLower(s)
  {
    var t := Text.ToLower(s);
    assert forall i :: 0 <= i < |t| ==> Text.LowerChar(t[i]) == t[i];
  }

  /** The search ignores letter case: a query and its lowercase form list the same
      products. */
  lemma QueryCaseInsensitive(catalog: seq<Product>, filters: Filters, query: string)
    ensures Query(catalog, filters, query) == Query(catalog, filters, Text.ToLower(query))
  {
    ToLowerIdempotent(query);
    var lower := Text.ToLower(query);
    assert query == "" <==> lower == "";
    forall p | p in catalog ensures Passes(p, filters, query) == Passes(p, filters, lower) {
      assert MatchesSearch(p, query) == MatchesSearch(p, lower);
    }
    FilterExt(catalog, PassesTest(filters, query), PassesTest(filters, lower));
  }

  /** `handleBrandToggle`. */
  function BrandToggled(filters: Filters, brand: string): Filters
  {
    filters.(brand := Toggle(filters.brand, brand))
  }

  /** `handleConditionToggle`. */
  function ConditionToggled(filters: Filters, condition: string): Filters
  {
    filters.(condition := Toggle(filters.condition, condition))
  }

  /** The number on the filter badge. It is zero exactly when no filter narrows
      the list: category `all`, no brand, no condition and the price range at least
      0..3500. */
  function ActiveFilterCount(filters: Filters): (r: int)
    ensures r >= 0
    ensures r == 0 <==>
              filters.category == "all" && filters.brand == [] && filters.condition == []
              && filters.minPrice <= 0 && filters.maxPrice >= DefaultMaxPrice
  {
    (if filters.category != "all" then 1 else 0)
    + |filters.brand| + |filters.condition|
    + (if filters.minPrice > 0 || filters.maxPrice < DefaultMaxPrice then 1 else 0)
  }

  /** `clearFilters`: the initial filters without a category, and no search text. */
  function ClearedFilters(): (Filters, string)
  {
    (InitialFilters(""), "")
  }

  /** Toggling a brand or a condition moves the badge by exactly one, up when the
      value was absent and down when present, and keeps the lists duplicate-free;
      toggling the same value again restores the membership of every value. */
  lemma ToggleCounts(filters: Filters, brand: string, condition: string)
    requires Distinct(filters.brand) && Distinct(filters.condition)
    ensures ActiveFilterCount(BrandToggled(filters, brand))
            == ActiveFilterCount(filters) + (if brand in filters.brand then -1 else 1)
    ensures ActiveFilterCount(ConditionToggled(filters, condition))
            == ActiveFilterCount(filters) + (if condition in filters.condition then -1 else 1)
    ensures Distinct(BrandToggled(filters, brand).brand)
    ensures Distinct(ConditionToggled(filters, condition).condition)
    ensures forall b :: b in BrandToggled(BrandToggled(filters, brand), brand).brand <==> b in filters.brand
    ensures forall c :: c in ConditionToggled(ConditionToggled(filters, condition), condition).condition
                        <==> c in filters.condition
  {
    ToggleDistinct(filters.brand, brand);
    ToggleDistinct(filters.condition, condition);
    ToggleTwice(filters.brand, brand);
    ToggleTwice(filters.condition, condition);
  }

  /** After `clearFilters` the badge shows zero and the page lists, featured first,
      every catalog product priced from 0 to 3500 dollars. */
  lemma ClearedQuery(catalog: seq<Product>)
    ensures ActiveFilterCount(ClearedFilters().0) == 0
    ensures Query(catalog, ClearedFilters().0, ClearedFilters().1)
            == InsertionSort(Filter(catalog, PriceTest(0, DefaultMaxPrice)), FeaturedKey)
  {
    var f := InitialFilters("");
    assert f.category == "all" && f.sortBy == "featured";
    forall p | p in catalog
      ensures PassesTest(f, "")(p) == PriceTest(0, DefaultMaxPrice)(p)
    {
      assert Passes(p, f, "") == PassesPrice(p, 0, DefaultMaxPrice);
    }
    FilterExt(catalog, PassesTest(f, ""), PriceTest(0, DefaultMaxPrice));
    assert SortKey(f.sortBy) == FeaturedKey;
  }

  /** The products the page lists first: those of the URL's category (every
      product when there is none or it is `all`) priced from 0 to 3500 dollars. */
  function InitialTest(categoryParam: string): Product -> bool
  {
    (p: Product) => (categoryParam == "" || categoryParam == "all" || p.category == categoryParam)
                    && PassesPrice(p, 0, DefaultMaxPrice)
  }

  /** Before any interaction the page lists, featured first, every product of the
      URL's category (of any category when the parameter is missing or `all`)
      priced from 0 to 3500 dollars, in catalog order within each group. */
  lemma InitialQuery(catalog: seq<Product>, categoryParam: string)
    ensures Query(catalog, InitialFilters(categoryParam), "")
            == InsertionSort(Filter(catalog, InitialTest(categoryParam)), FeaturedKey)
  {
    var f := InitialFilters(categoryParam);
    assert f.sortBy == "featured";
    forall p | p in catalog
      ensures PassesTest(f, "")(p) == InitialTest(categoryParam)(p)
    {
      assert Passes(p, f, "") == InitialTest(categoryParam)(p);
    }
    FilterExt(catalog, PassesTest(f, ""), InitialTest(categoryParam));
    assert SortKey(f.sortBy) == FeaturedKey;
  }

  /** The minimum-price input: `parseInt(value) || 0`. */
  function MinPriceInput(text: string): int
  {
    match Text.ParseInt(text)
    case Some(n) => n
    case None => 0
  }

  /** The maximum-price input: `parseInt(value) || 3500`; zero counts as missing. */
  function MaxPriceInput(text: string): (r: int)
    ensures r != 0
  {
    match Text.ParseInt(text)
    case Some(n) => if n == 0 then DefaultMaxPrice else n
    case None => DefaultMaxPrice
  }

  /** Typing a whole number of dollars sets that bound, except that a maximum of 0
      falls back to 3500; text with no leading number sets the defaults. */
  lemma PriceInputs(n: int, text: string)
    ensures MinPriceInput(Text.IntString(n)) == n
    ensures MaxPriceInput(Text.IntString(n)) == if n == 0 then DefaultMaxPrice else n
    ensures Text.ParseInt(text) == None ==> MinPriceInput(text) == 0 && MaxPriceInput(text) == DefaultMaxPrice
  {
    Text.ParseIntIntString(n, "");
    assert Text.IntString(n) + "" == Text.IntString(n);
  }
}
