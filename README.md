# lapstone storefront — a Dafny model of its shopping logic

lapstone is a React storefront for laptops. This project models the parts of it
that compute something:

- The shopping cart held by the application shell: add, remove, update the
  quantity, clear, the total and the unit count.
- The product listing: search, category, brand, condition and price filters, and
  the sort orders.
- The checkout page: shipping, tax and final total, the three-step form, the step
  indicator and the card label.
- The product page: lookup by route id, related products, the specification rows,
  the stock caption and the quantity selector.
- The wishlist page, the home page rows and category counts, the FAQ accordion and
  its filter.
- The password meter of the sign-up form.
- The product card's badge class, Hot Deal rule and processor label.
- The shared button's class string and disabled rule.

There is one Dafny module per source file, plus four shared modules:

- `Seqs`: the list idioms `filter`, `slice`, `includes`-toggle and order-preserving
  subsequences.
- `Text`: the JavaScript string operations used: `toLowerCase` on ASCII, `includes`,
  `replace` with a string pattern, `split`, `join`, `parseInt`, and `String` of an
  integer.
- `Catalog`: the product record, the hot-deal threshold and the condition key.
- `StableSort`: a stable insertion sort by a numeric key, specified as a function
  and also carried out in place on an array.

Units and conventions:

- Money is in integer cents. Tax and the final total are exact rationals.
- The price filter bounds are whole dollars, as typed into the page.
- Stateful parts are classes whose methods update their fields:
  - `Cart.CartStore`: the cart items;
  - `Checkout.CheckoutFlow`: step, processing and completion flags;
  - `ProductDetail.ProductPage`: the product shown and the selected quantity;
  - `Wishlist.WishlistPage`: the wishlist items;
  - `Faq.FaqPage`: the open questions.
- Each method states its new state through a pure function of the old one, and the
  lemmas beside the functions prove what the page promises.

Where the code and the written description disagree, the model follows the code.
The description says every space of a product condition becomes a hyphen in the
condition key. `replace(' ', '-')` with a string pattern replaces only the first
space. `Catalog.ConditionKeySpec` states the code's behaviour.

## Model

| member | source | states |
|---|---|---|
| Cart.AddedShape | src/App.jsx:26-38 | a product already in the cart has that one line's quantity raised in place, everything else unchanged; a new product is appended as one line at the end |
| Cart.AddedAt | src/App.jsx:28-35 | when the product's id is at position k, addToCart is exactly the update of line k's quantity |
| Cart.AddedUnique | src/App.jsx:26-38 | addToCart never creates a second line for an id, whatever the quantity |
| Cart.AddedValid | src/App.jsx:26-38 | addToCart with a positive quantity keeps ids unique and every quantity positive |
| Cart.AddedTotals | src/App.jsx:26-38 | addToCart raises the unit count by the quantity, and the total by the quantity times the price of the line that receives it (the stored price for an existing line) |
| Cart.AddedQuantityOf | src/App.jsx:26-38 | addToCart adds the quantity to that product and nothing to any other product |
| Cart.WithoutFilters | src/App.jsx:40-42 | removeFromCart keeps the other lines in order and leaves no line with the id |
| Cart.WithoutShape | src/App.jsx:40-42 | on a cart with unique ids, removal is a no-op for an absent id and deletes exactly the one matching line otherwise |
| Cart.WithoutAt | src/App.jsx:40-42 | removing the id found at position k deletes position k only |
| Cart.WithoutTotals | src/App.jsx:40-42 | removal keeps the cart invariant and takes exactly the removed line's units and subtotal off the totals |
| Cart.RemoveAtValid | src/App.jsx:40-42 | deleting one line keeps ids unique and quantities positive |
| Cart.UpdatedShape | src/App.jsx:44-54 | a quantity of zero or less is removeFromCart; a positive quantity replaces only the matching line's quantity, moves the unit count by the difference and the total by the price times the difference; the invariant is kept |
| Cart.UpdatedTotals | src/App.jsx:44-65 | setting one line's quantity moves the unit count by the difference and the total by that line's price times the difference |
| Cart.SumByUpdate | src/App.jsx:60-65 | replacing one line changes a reduce-sum by the difference of the two lines' weights |
| Cart.SumByRemove | src/App.jsx:60-65 | deleting one line takes its weight off a reduce-sum |
| Cart.CartStore.constructor | src/App.jsx:17-20 | with no saved cart the store starts empty and valid |
| Cart.CartStore.AddToCart | src/App.jsx:26-38 | the items become Added of the old items, the unit count rises by the quantity, ids stay unique, and a positive quantity keeps the invariant |
| Cart.CartStore.RemoveFromCart | src/App.jsx:40-42 | the items become Without of the old items, no line has the id, the rest is an order-preserving subsequence |
| Cart.CartStore.UpdateQuantity | src/App.jsx:44-54 | the items become Updated of the old items (removal at zero or less) and the invariant is kept |
| Cart.CartStore.ClearCart | src/App.jsx:56-58 | the cart is empty, with total 0 and count 0 |
| Catalog.ConditionKeySpec | src/components/ProductCard.jsx:16 | the condition key keeps the length and has no capital; without a space it is the lowercased text; otherwise only the first space becomes `-` |
| Products.InitialFilters | src/pages/Products.jsx:16-22 | the filters start with no brand, no condition, the price range 0..3500 and sort `featured`; the category is the URL parameter, or `all` when the parameter is missing or empty; the filter badge starts at 0, or at 1 when the URL names a category other than `all` |
| Products.InitialQuery | src/pages/Products.jsx:14-80 | on first render, with no search text, the list is the catalog products of the URL's category (every category without one) priced 0..3500, featured first and otherwise in catalog order |
| Products.Narrow | src/pages/Products.jsx:32-59 | running the guarded filter stages one after another yields exactly the catalog products that pass every active filter, in catalog order |
| Products.FilteredProducts | src/pages/Products.jsx:31-80 | the narrowed list, copied into an array and sorted in place, is Query: the passing products stably sorted by the chosen key |
| Products.QueryMembers | src/pages/Products.jsx:34-59 | a product is listed if and only if it is in the catalog and passes search, category, brand, condition and the inclusive price range; the list is a sub-multiset of the catalog |
| Products.QueryOrder | src/pages/Products.jsx:61-77 | `price-low` is non-decreasing in price; `price-high`, `rating` and `discount` are non-increasing; any other value lists featured products first |
| Products.QueryStable | src/pages/Products.jsx:61-77 | products that tie on the sort key keep their catalog order |
| Products.QueryFeaturedFirst | src/pages/Products.jsx:74-76 | under `featured` or an unknown value the list is the passing featured products in catalog order, then the other passing products in catalog order |
| Products.QueryUnrestricted | src/pages/Products.jsx:34-59 | with no search text and no filter that excludes anything, the list is the whole catalog, sorted |
| Products.QueryEmptyRange | src/pages/Products.jsx:57-59 | a minimum price above the maximum lists nothing |
| Products.QueryCaseInsensitive | src/pages/Products.jsx:34-40 | a query and its lowercase form list the same products |
| Products.ToggleCounts | src/pages/Products.jsx:91-107 | toggling a brand or condition moves the filter badge by exactly one in the right direction, keeps the lists duplicate-free, and toggling twice restores membership |
| Products.ActiveFilterCount | src/pages/Products.jsx:121-125 | the badge is never negative, and it is zero exactly when category is `all`, no brand or condition is chosen and the price range is at least 0..3500 |
| Products.ClearedQuery | src/pages/Products.jsx:109-119 | after clearing, the badge is zero and the list is every product priced 0..3500, featured first |
| Products.MaxPriceInput | src/pages/Products.jsx:287-290 | the maximum bound typed in is never 0: `parseInt(...) \|\| 3500` replaces 0 and NaN by 3500 |
| Products.PriceInputs | src/pages/Products.jsx:276-290 | typing a whole number sets the minimum to it, and the maximum to it unless it is 0; text with no leading number gives 0 and 3500 |
| StableSort.SortPermutes | src/pages/Products.jsx:61-77 | the sorted list is a permutation of the filtered list |
| StableSort.SortSorted | src/pages/Products.jsx:61-77 | the sorted list is non-decreasing in the key |
| StableSort.SortStable | src/pages/Products.jsx:61-77 | for every key value, the elements with that key keep their input order |
| StableSort.SortedTwoKeys | src/pages/Products.jsx:74-76 | a sorted list with two key values is its low-key elements followed by its high-key elements |
| StableSort.InsertInPlace | src/pages/Products.jsx:61-77 | moving `a[i]` left past the larger keys leaves `a[..i+1]` equal to Insert of the old prefix and element, and the rest of the array unchanged |
| StableSort.InsertionSortInPlace | src/pages/Products.jsx:61-77 | sorting the array in place leaves it equal to InsertionSort of its old contents |
| Checkout.ShippingCost | src/pages/Checkout.jsx:33 | shipping is 0 exactly above $500, and $49 otherwise |
| Checkout.FinalTotal | src/pages/Checkout.jsx:34-35 | the final total is 108% of the subtotal plus shipping, never below a non-negative subtotal |
| Checkout.ShippingNonIncreasing | src/pages/Checkout.jsx:33 | shipping never rises as the subtotal grows, and exactly $500 still pays it |
| Checkout.FinalTotalDipsAtThreshold | src/pages/Checkout.jsx:33-35 | a $500.01 cart costs less in total than a $500 cart; above the threshold the total is exactly 108% |
| Checkout.Indicator | src/pages/Checkout.jsx:111-121 | three captions in order; caption i is completed exactly when `step > i + 1` and then shows a check mark instead of its number; on steps 1..3 exactly caption `step - 1` is active |
| Checkout.ViewFor | src/pages/Checkout.jsx:59-71 | the confirmation shows exactly when an order is complete; otherwise the empty-cart message exactly for an empty cart, and the form for a non-empty one |
| Checkout.CardLabel | src/pages/Checkout.jsx:326 | the last four characters of the card number, the whole number when shorter, `****` when empty |
| Checkout.CheckoutFlow.constructor | src/pages/Checkout.jsx:12-14 | the form starts on step 1, not processing, not complete |
| Checkout.CheckoutFlow.Submit | src/pages/Checkout.jsx:45-57 | steps 1 and 2 advance by one; step 3 stays and starts processing |
| Checkout.CheckoutFlow.PaymentSettled | src/pages/Checkout.jsx:51-55 | processing stops, the order is complete and the cart is empty |
| Checkout.CheckoutFlow.Back | src/pages/Checkout.jsx:348-352 | offered only after step 1, it goes back one step and changes nothing else |
| Checkout.CheckoutFlow.PlaceOrder | src/pages/Checkout.jsx:45-71 | submitting on step 3 and the payment completing empties the cart, yet the page shows the confirmation, not the empty-cart message |
| ProductDetail.FindById | src/pages/ProductDetail.jsx:21 | a product found is in the catalog and has the id; none found means no catalog product has it |
| ProductDetail.FindByIdFirst | src/pages/ProductDetail.jsx:21 | the product found is the first one with the id, and one is found whenever any product has the id |
| ProductDetail.LookupLink | src/pages/ProductDetail.jsx:21-23 | a route id written from an integer finds the same product as looking up that integer |
| ProductDetail.RelatedProductsSpec | src/pages/ProductDetail.jsx:34-36 | at most four products, each of the same category with a different id, in catalog order, and exactly the first such products |
| ProductDetail.Specs | src/pages/ProductDetail.jsx:42-48 | processor, display, storage and RAM in that order, then Graphics exactly when the product has a non-empty GPU |
| ProductDetail.StockTextSpec | src/pages/ProductDetail.jsx:117 | the caption is "In Stock" exactly above five units; otherwise it starts "Only " and the exact number reads back with parseInt |
| ProductDetail.Clicked | src/pages/ProductDetail.jsx:147-160 | a click keeps the quantity in 1..stock and never takes it below 1; plus adds one below the stock and is ignored at or above it; minus removes one above 1 and is ignored at 1 |
| ProductDetail.ClicksStayInRange | src/pages/ProductDetail.jsx:147-160 | from the initial quantity 1, any sequence of clicks on one product's page keeps the quantity within range |
| ProductDetail.EventsKeepQuantityPositive | src/pages/ProductDetail.jsx:147-160 | whatever is clicked and whichever products are shown, the quantity stays at least 1 |
| ProductDetail.StaleQuantity | src/pages/ProductDetail.jsx:17 | after 8 is chosen at a stock of 10 and a product with a stock of 3 is shown, the quantity is still 8, out of range, and plus ignores it |
| ProductDetail.KeyedEventsStayInRange | src/pages/ProductDetail.jsx:17 | with the page remounted per product, the quantity stays within range of the product shown under any clicks and links |
| ProductDetail.ProductPage.constructor | src/pages/ProductDetail.jsx:17 | the selected quantity starts at 1, within range |
| ProductDetail.ProductPage.ShowProduct | src/App.jsx:83 | showing another product replaces the product and keeps the quantity |
| ProductDetail.ProductPage.Decrement | src/pages/ProductDetail.jsx:149-150 | the quantity becomes the minus click's result, stays at least 1, and stays in range when it was |
| ProductDetail.ProductPage.Increment | src/pages/ProductDetail.jsx:157-158 | the quantity becomes the plus click's result, stays at least 1, and stays in range when it was |
| ProductDetail.ProductPage.AddSelectedToCart | src/pages/ProductDetail.jsx:38-40 | the selected quantity of the product goes into the cart, which stays valid |
| Wishlist.WishlistPage.constructor | src/pages/Wishlist.jsx:13-17 | the demonstration list is catalog entries 0, 2 and 4 |
| Wishlist.WishlistPage.Remove | src/pages/Wishlist.jsx:19-21 | every entry with the id leaves the list, the rest keep their order |
| Wishlist.WishlistPage.MoveToCart | src/pages/Wishlist.jsx:23-26 | one unit goes to the cart, then the product leaves the wishlist |
| Wishlist.WishlistPage.AddAll | src/pages/Wishlist.jsx:151 | moving every entry in turn adds each one to the cart and leaves the wishlist empty |
| Wishlist.WishlistPage.Clear | src/pages/Wishlist.jsx:158 | the list is empty and the page shows its empty state |
| Wishlist.AddedEachSpec | src/pages/Wishlist.jsx:151 | adding each product once keeps the cart valid, adds one unit per product, and adds to each id as many units as the list names it |
| Wishlist.AddAllQuantities | src/pages/Wishlist.jsx:151 | with distinct ids, Add All puts exactly one more unit of each listed product in the cart and nothing else |
| Home.FeaturedProductsSpec | src/pages/Home.jsx:10 | at most four featured products, in catalog order, exactly the first featured ones |
| Home.HotDealsSpec | src/pages/Home.jsx:11 | at most three products discounted 30% or more, in catalog order, exactly the first such ones |
| Home.CategoryTilesSpec | src/pages/Home.jsx:180 | the tiles are the categories other than `all`, in order |
| Home.CategoryCountSpec | src/pages/Home.jsx:195 | a tile's count is the number of catalog positions holding a product of that category |
| Faq.FilteredFaqsSpec | src/pages/FAQ.jsx:115-120 | the list keeps page order and holds exactly the questions matching both topic and search text |
| Faq.EmptySearchKeepsAll | src/pages/FAQ.jsx:117-119 | the empty query matches every question, so topic `all` with no search lists everything |
| Faq.FaqPage.constructor | src/pages/FAQ.jsx:9-11 | topic `all`, nothing open, no search text |
| Faq.FaqPage.ToggleItem | src/pages/FAQ.jsx:109-113 | the question's open state flips, no other question's does, the open list stays duplicate-free and its length moves by one |
| Faq.ToggleItemTwice | src/pages/FAQ.jsx:109-113 | toggling a question twice restores the open set, and the list itself when it was closed |
| Seqs.Toggle | src/pages/FAQ.jsx:111 | `includes ? filter : append` flips the value's membership and no other element's |
| Seqs.FirstMatches | src/pages/Home.jsx:10-11 | `filter(...).slice(0, n)` has at most n passing elements in order, and is the filter of some prefix that is the whole input or yields n |
| Register.PasswordStrength | src/pages/Register.jsx:22-29 | levels 0..3 with matching captions, lengths in UTF-16 code units: 0 exactly for the empty password, 1 exactly for 1 to 5 units, 2 for 6 to 9, and from 10 units 3 exactly when the first line has a lowercase letter, a capital and a digit |
| Register.AstralCharactersCountTwice | src/pages/Register.jsx:22-29 | three emoji are six code units long, so they read Medium, not Weak |
| Text.UnitLength | src/pages/Register.jsx:24-26 | `length` lies between the number of characters and twice it, is 0 exactly for the empty text, and equals the number of characters when none is beyond U+FFFF |
| Register.FirstLine | src/pages/Register.jsx:27 | the text up to the first line terminator, which `.` in the pattern cannot cross |
| Register.StrongMeetsChecklist | src/pages/Register.jsx:27-117 | a Strong password meets all three checklist items |
| Register.ChecklistDoesNotImplyStrong | src/pages/Register.jsx:22-117 | a password can meet all three items and still read Medium by being shorter than ten characters |
| Register.SecondLineNotStrong | src/pages/Register.jsx:22-117 | any password of ten or more characters made of a lowercase first line, a line break and a rest holding a capital and a digit meets all three items yet reads Medium |
| ProductCard.ConditionClass | src/components/ProductCard.jsx:16 | the badge class has the condition's length and no capital, and the condition filter selects the product exactly when it is off or lists this class |
| ProductCard.HotDealsShowBadge | src/components/ProductCard.jsx:38 | every product in the home page's hot-deal row is discounted 30% or more, so its card shows the Hot Deal badge |
| ProductCard.ProcessorLabel | src/components/ProductCard.jsx:61 | the label is a suffix of the processor text with no space, either the whole text or preceded by a space; text with no space is its own label |
| ProductCard.ProcessorLabelAfterLastSpace | src/components/ProductCard.jsx:61 | the label is everything after the last space |
| ProductCard.AddFromCard | src/components/ProductCard.jsx:13 | the card adds exactly one unit of the product to the cart |
| Button.ClassesClosedForm | src/components/Button.jsx:18-25 | the class string is `btn btn-<variant> btn-<size>`, then ` btn-full`, ` btn-loading` and the extra class name when present, each after one space |
| Button.DefaultClasses | src/components/Button.jsx:6-25 | with every property absent the class string is `btn btn-primary btn-md` |
| Button.TokensMembership | src/components/Button.jsx:18-25 | `btn`, the variant and size classes always appear; full width and loading add theirs; a non-empty extra class appears; no class is empty |
| Button.FlagClassOrigin | src/components/Button.jsx:18-25 | `btn-full` or `btn-loading` appears only from its flag, or from a variant, size or extra class that spells it |
| Button.ButtonType | src/components/Button.jsx:14 | the type is `button` when absent, and `submit` only when given as `submit` |
| Button.IsDisabled | src/components/Button.jsx:32 | the button is disabled exactly when `disabled` or `loading`; with both absent it is enabled |
| Button.HoverScale | src/components/Button.jsx:33-34 | the hover scale is 1 exactly when `disabled`, so a button that is only loading still grows on hover |
| Button.ContentOf | src/components/Button.jsx:37-49 | a loading button shows only the spinner; otherwise the icon is on at most one side, the side `iconPosition` names, left by default |
| Text.ParseIntIntString | src/pages/ProductDetail.jsx:21 | parseInt reads back any integer written in decimal when the next character is not a digit and, after a lone `0`, not `x` or `X` either |
| Text.ZeroHexPrefix | src/pages/ProductDetail.jsx:21 | `0x` followed by no hexadecimal digit parses to NaN, which is why `0` cannot be followed by `x` |
| Text.LastPieceOfSplit | src/components/ProductCard.jsx:61 | the last piece of `split(sep)` is the longest separator-free suffix |
| Text.ReplaceFirst | src/components/ProductCard.jsx:16 | replacing keeps the length and changes a character only from the pattern to the replacement |
| Text.ReplaceFirstAt | src/pages/Products.jsx:53 | when the first pattern character is at k, only position k changes |

## Left out

- Persistence of the cart in localStorage (src/App.jsx:17-24). The store starts empty.
- Routing and URL synchronisation of the category filter (src/pages/Products.jsx:24-29, 82-89):
  - a category in the URL is taken only by `Products.InitialFilters`;
  - `handleCategoryChange` is a plain field update and is not modelled separately.
- The checkout payment timer (src/pages/Checkout.jsx:51-55) is not scheduled. `PaymentSettled` is its callback, and `PlaceOrder` runs submit and callback back to back.
- Form field handling, validation attributes, animation, images and formatting with `toLocaleString`/`toFixed` are not modelled.
- Tax and the final total are exact rationals. JavaScript computes them in binary floating point.
- `toLowerCase` is modelled on ASCII letters only. `parseInt` is modelled exactly, but integers above 2^53 are not rounded as JavaScript numbers are.
- Product prices are integer cents. The price filter compares them with whole-dollar bounds times 100.
- `Cart.CartStore.AddToCart`: the cart invariant (unique ids, positive quantities) is promised only for a positive quantity. Every caller passes 1 or the product page's selected quantity, which is at least 1.
- `Wishlist.WishlistPage.constructor`: requires a catalog of at least five products. The page indexes entries 0, 2 and 4 without a guard.
- The cart page (src/pages/Cart.jsx) only displays the cart and calls the store's operations; it is not part of this model. The same goes for the header, the footer and the static pages (about, contact, not found).
- The product and FAQ data are static content and come in as parameters.
- Checkout.CardLabel: takes the last four characters. `slice(-4)` takes the last four UTF-16 code units, which for a character beyond U+FFFF can split its surrogate pair; a Dafny string cannot hold a lone surrogate. The two agree whenever no character is beyond U+FFFF.
- `ProductDetail.ProductPage` models the page as written: `ShowProduct` keeps the quantity. `ProductDetail.KeyedEventsStayInRange` is proved about the remounting page in the functional model only.

## Findings

| source | as written | input that shows it | evidently intended | confidence | as-written member | corrected member |
|---|---|---|---|---|---|---|
| src/pages/ProductDetail.jsx:17 | `useState(1)` sets the quantity only on mount, and the route (src/App.jsx:83) has no `key`, so a link to a related product keeps the old quantity | choose 8 at a stock of 10, then open a related product with a stock of 3: the page shows 8, plus is disabled and Add to Cart adds 8 | the quantity starts at 1 for every product shown and stays within its stock | not executed | ProductDetail.StaleQuantity | ProductDetail.KeyedEventsStayInRange |
