/** The product page (src/pages/ProductDetail.jsx): finding the product named by
    the route, the related products, the specification rows, the stock caption
    and the quantity selector that feeds the cart. */
module ProductDetail {
  import opened Seqs
  import opened Catalog
  import Text
  import Cart

  /** `products.find(p => p.id === id)`: the first product with that id. */
  function FindById(catalog: seq<Product>, id: int): (r: Option<Product>)
    ensures r.Some? ==> r.value in catalog && r.value.id == id
    ensures r.None? ==> forall k :: 0 <= k < |catalog| ==> catalog[k].id != id
  {
    if catalog == [] then None
    else if catalog[0].id == id then Some(catalog[0])
    else FindById(catalog[1..], id)
  }

  /** The product the route `/product/:id` shows: the route parameter goes through
      `parseInt`, and text with no leading number (NaN) matches no product, which
      selects the not-found branch. */
  function Lookup(catalog: seq<Product>, routeId: string): Option<Product>
  {
    match Text.ParseInt(routeId)
    case None => None
    case Some(id) => FindById(catalog, id)
  }

  /** The product found is the FIRST one with the id: every product before it in
      the catalog has another id. */
  lemma {:induction false} FindByIdFirst(catalog: seq<Product>, id: int)
    ensures FindById(catalog, id).Some? ==>
              exists k :: 0 <= k < |catalog| && catalog[k] == FindById(catalog, id).value
                          && forall j :: 0 <= j < k ==> catalog[j].id != id
    ensures (exists k :: 0 <= k < |catalog| && catalog[k].id == id) ==> FindById(catalog, id).Some?
  {
    if catalog != [] && catalog[0].id != id {
      FindByIdFirst(catalog[1..], id);
      if FindById(catalog, id).Some? {
        var k :| 0 <= k < |catalog[1..]| && catalog[1..][k] == FindById(catalog, id).value
                 && forall j :: 0 <= j < k ==> catalog[1..][j].id != id;
        assert catalog[k + 1] == FindById(catalog, id).value;
        assert forall j :: 0 <= j < k + 1 ==> catalog[j].id != id by {
          forall j | 0 <= j < k + 1 ensures catalog[j].id != id {
            if j > 0 {
              assert catalog[j] == catalog[1..][j - 1];
            }
          }
        }
      }
    } else if catalog != [] {
      assert catalog[0] == FindById(catalog, id).value;
    }
  }

  /** The links in the storefront write the id with String, so following a link to
      a product id finds the first catalog product with that id. */
  lemma LookupLink(catalog: seq<Product>, id: int)
    ensures Lookup(catalog, Text.IntString(id)) == FindById(catalog, id)
  {
    Text.ParseIntIntString(id, "");
    assert Text.IntString(id) + "" == Text.IntString(id);
  }

  /** How many related products the page shows at most. */
  const MaxRelated: nat := 4

  predicate IsRelated(product: Product, p: Product)
  {
    p.category == product.category && p.id != product.id
  }

  function RelatedTest(product: Product): Product -> bool
  {
    p => IsRelated(product, p)
  }

  /** `relatedProducts`. */
  function RelatedProducts(catalog: seq<Product>, product: Product): seq<Product>
  {
    Take(Filter(catalog, RelatedTest(product)), MaxRelated)
  }

  /** The related products share the category, exclude the product's own id, keep
      catalog order and number at most four; they are the first four such products
      of the catalog, or all of them when there are fewer. */
  lemma RelatedProductsSpec(catalog: seq<Product>, product: Product)
    ensures |RelatedProducts(catalog, product)| <= MaxRelated
    ensures forall p :: p in RelatedProducts(catalog, product) ==>
              p in catalog && p.category == product.category && p.id != product.id
    ensures IsSubseq(RelatedProducts(catalog, product), catalog)
    ensures exists k :: 0 <= k <= |catalog|
              && RelatedProducts(catalog, product) == Filter(catalog[..k], RelatedTest(product))
              && (k == |catalog| || |RelatedProducts(catalog, product)| == MaxRelated)
  {
    FirstMatches(catalog, RelatedTest(product), MaxRelated);
  }

  /** One row of the specification grid. */
  datatype Spec = Spec(caption: string, value: string)

  /** A `gpu` field counts only when present and non-empty (JavaScript truthiness). */
  predicate HasGraphics(p: Product)
  {
    p.gpu.Some? && p.gpu.value != ""
  }

  /** `specs`: processor, display, storage and RAM, then graphics when present. */
  function Specs(p: Product): (r: seq<Spec>)
    ensures |r| == if HasGraphics(p) then 5 else 4
    ensures r[..4] == [Spec("Processor", p.processor), Spec("Display", p.display),
                       Spec("Storage", p.storage), Spec("RAM", p.ram)]
    ensures HasGraphics(p) ==> r[4] == Spec("Graphics", p.gpu.value)
  {
    [Spec("Processor", p.processor), Spec("Display", p.display),
     Spec("Storage", p.storage), Spec("RAM", p.ram)]
    + (if HasGraphics(p) then [Spec("Graphics", p.gpu.value)] else [])
  }

  /** The stock caption: "In Stock" above five units, otherwise "Only N left". */
  function StockText(stock: int): string
  {
    if stock > 5 then "In Stock" else "Only " + Text.IntString(stock) + " left"
  }

  /** The caption says "In Stock" exactly when more than five units remain; any
      other caption names the exact number, which reads back with parseInt. */
  lemma StockTextSpec(stock: int)
    ensures StockText(stock) == "In Stock" <==> stock > 5
    ensures stock <= 5 ==> StockText(stock)[..5] == "Only "
                           && Text.ParseInt(StockText(stock)[5..]) == Some(stock)
  {
    if stock <= 5 {
      var t := StockText(stock);
      assert t[5..] == Text.IntString(stock) + " left";
      Text.ParseIntIntString(stock, " left");
      assert t[..5] == "Only ";
      assert t != "In Stock" by {
        assert t[0] == 'O';
      }
    }
  }

  function Max(a: int, b: int): int
  {
    if a >= b then a else b
  }

  function Min(a: int, b: int): int
  {
    if a <= b then a else b
  }

  /** The range the selected quantity lives in: 1 up to the stock, or just 1 when
      the product is out of stock. */
  predicate InRange(quantity: int, stock: int)
  {
    1 <= quantity <= Max(1, stock)
  }

  /** One click on the minus (`plus == false`) or plus button. A button whose
      `disabled` condition holds ignores the click; otherwise minus sets
      `Math.max(1, quantity - 1)` and plus `Math.min(stock, quantity + 1)`. A
      quantity above the stock cannot grow, and minus takes it down one step. */
  function Clicked(quantity: int, stock: int, plus: bool): (r: int)
    ensures InRange(quantity, stock) ==> InRange(r, stock)
    ensures quantity >= 1 ==> r >= 1
    ensures plus && quantity < stock ==> r == quantity + 1
    ensures plus && quantity >= stock ==> r == quantity
    ensures !plus && quantity > 1 ==> r == quantity - 1
    ensures !plus && quantity <= 1 ==> r == quantity
  {
    if plus then (if quantity >= stock then quantity else Min(stock, quantity + 1))
    else (if quantity <= 1 then quantity else Max(1, quantity - 1))
  }

  function AfterClicks(quantity: int, stock: int, clicks: seq<bool>): int
  {
    if clicks == [] then quantity
    else Clicked(AfterClicks(quantity, stock, clicks[..|clicks| - 1]), stock, clicks[|clicks| - 1])
  }

  /** From the initial quantity 1, every sequence of clicks on one product's page
      leaves the quantity between 1 and the stock (1 when out of stock). */
  lemma {:induction false} ClicksStayInRange(stock: int, clicks: seq<bool>)
    ensures InRange(AfterClicks(1, stock, clicks), stock)
  {
    if clicks != [] {
      ClicksStayInRange(stock, clicks[..|clicks| - 1]);
    }
  }

  /** What happens on the product page: a click on minus or plus, or a link to
      another product (a related product's card), which the route `/product/:id`
      renders with the same page component. */
  datatype PageEvent = Click(plus: bool) | Show(stock: int)

  /** The selector's state: the selected quantity and the stock of the product
      shown. */
  datatype Selection = Selection(quantity: int, stock: int)

  /** One event. The route renders the page without a `key`, so React keeps the
      component and its `useState(1)` quantity when another product is shown
      (`keyed == false`, the code as written). With `keyed == true` the page is
      remounted per product id and the quantity starts again at 1. */
  function Step(s: Selection, e: PageEvent, keyed: bool): Selection
  {
    match e
    case Click(plus) => Selection(Clicked(s.quantity, s.stock, plus), s.stock)
    case Show(stock) => Selection(if keyed then 1 else s.quantity, stock)
  }

  function AfterEvents(s: Selection, events: seq<PageEvent>, keyed: bool): Selection
  {
    if events == [] then s
    else Step(AfterEvents(s, events[..|events| - 1], keyed), events[|events| - 1], keyed)
  }

  /** As written, the selected quantity is never below 1, whatever is clicked and
      whichever products are shown. */
  lemma {:induction false} EventsKeepQuantityPositive(s: Selection, events: seq<PageEvent>)
    requires s.quantity >= 1
    ensures AfterEvents(s, events, false).quantity >= 1
  {
    if events != [] {
      EventsKeepQuantityPositive(s, events[..|events| - 1]);
    }
  }

  /** As written, the quantity outlives the product: 8 chosen at a stock of 10
      stays selected after a related product with a stock of 3 is shown. It is
      then out of range, the plus button ignores it, and Add to Cart would add 8
      units of a product that has 3. */
  lemma StaleQuantity()
    ensures var s := AfterEvents(Selection(1, 10), SevenPlusThenShowThree(), false);
            s == Selection(8, 3) && !InRange(s.quantity, s.stock)
            && Step(s, Click(true), false) == s
  {
    var events := SevenPlusThenShowThree();
    var q := 1;
    for i := 0 to 7
      invariant q == i + 1
      invariant AfterEvents(Selection(1, 10), events[..i], false) == Selection(q, 10)
    {
      assert events[..i + 1][..i] == events[..i];
      q := q + 1;
    }
    assert events[..8][..7] == events[..7];
    assert events[..8] == events;
  }

  /** Seven clicks on plus, then a link to a product with 3 units in stock. */
  function SevenPlusThenShowThree(): (r: seq<PageEvent>)
    ensures |r| == 8 && r[7] == Show(3)
    ensures forall i :: 0 <= i < 7 ==> r[i] == Click(true)
  {
    seq(7, _ => Click(true)) + [Show(3)]
  }

  /** With the page keyed by product id, the quantity is within range of the
      product shown after any clicks and any links. */
  lemma {:induction false} KeyedEventsStayInRange(s: Selection, events: seq<PageEvent>)
    requires InRange(s.quantity, s.stock)
    ensures var r := AfterEvents(s, events, true); InRange(r.quantity, r.stock)
  {
    if events != [] {
      KeyedEventsStayInRange(s, events[..|events| - 1]);
    }
  }

  /** The product page's own state: the product shown and the selected quantity.
      Showing another product keeps the quantity, as the code does. */
  class ProductPage {
    var product: Product
    var quantity: int

    ghost predicate Valid()
      reads this
    {
      quantity >= 1
    }

    function Current(): Selection
      reads this
    {
      Selection(quantity, product.stock)
    }

    constructor (product: Product)
      ensures this.product == product && quantity == 1 && Valid()
      ensures InRange(quantity, product.stock)
    {
      this.product := product;
      quantity := 1;
    }

    /** A link to another product: the page stays mounted and the quantity is
        kept. */
    method ShowProduct(p: Product)
      requires Valid()
      modifies this
      ensures Valid() && product == p && quantity == old(quantity)
      ensures Current() == Step(old(Current()), Show(p.stock), false)
    {
      product := p;
    }

    /** The minus button. */
    method Decrement()
      requires Valid()
      modifies this
      ensures Valid() && product == old(product)
      ensures quantity == Clicked(old(quantity), product.stock, false)
      ensures Current() == Step(old(Current()), Click(false), false)
      ensures old(InRange(quantity, product.stock)) ==> InRange(quantity, product.stock)
    {
      if !(quantity <= 1) {
        quantity := Max(1, quantity - 1);
      }
    }

    /** The plus button. */
    method Increment()
      requires Valid()
      modifies this
      ensures Valid() && product == old(product)
      ensures quantity == Clicked(old(quantity), product.stock, true)
      ensures Current() == Step(old(Current()), Click(true), false)
      ensures old(InRange(quantity, product.stock)) ==> InRange(quantity, product.stock)
    {
      if !(quantity >= product.stock) {
        quantity := Min(product.stock, quantity + 1);
      }
    }

    /** `handleAddToCart`: the selected quantity of this product goes to the cart. */
    method AddSelectedToCart(cart: Cart.CartStore)
      requires Valid() && cart.Valid()
      modifies cart
      ensures cart.Valid()
      ensures cart.items == Cart.Added(old(cart.items), product, quantity)
      ensures cart.Count() == old(cart.Count()) + quantity
    {
      cart.AddToCart(product, quantity);
    }
  }
}
