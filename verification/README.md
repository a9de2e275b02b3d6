# Osvara storefront cart and screen logic, modelled in Dafny

This project models the logic of the Osvara React Native storefront. It covers
the zustand cart store and the screen handlers that read and change it. Each
piece of state becomes an immutable value, and each handler becomes a pure
function from the old state to the new one. The pieces are:

- **Cart store** (`CartStore`): an ordered sequence of cart lines. Each line is
  the product snapshot taken when the line was created, plus a quantity. The
  store has four mutations (`addToCart`, `removeFromCart`, `updateQuantity`,
  `clearCart`) and two `reduce` sums (`getTotalPrice`, `getTotalItems`).
- **Storefront** (`HomeScreen`): the catalog query pipeline. A category stage
  (including the 'Sale' pseudo-category) is followed by a search stage
  (trimmed-blank check, lowercased substring search over name, brand and
  category) and a stable sort (price ascending, price descending, or rating).
  The screen also has the trending strip, the sort and category chips, the
  hero 'Flash Sale' button and the grid's ADD button. The JavaScript string
  operations it uses (`trim`, `toLowerCase`, `includes`) are in `Text`, and an
  order-preserving `filter` is in `Seqs`.
- **Cart screen** (`CartScreen`): the −/+ steppers, the delete button, the
  clear-cart confirmation and the checkout guard.
- **Product page** (`ProductDetail`): the quantity stepper that never drops
  below 1, the default size and color, and 'Add to Cart'.
- **Checkout** (`Checkout`): the summary rows and total, the required-field
  check, and clearing the cart when the success alert is acknowledged.
- **Contact form** (`Contact`): the generic field change handler, the
  required-field check and the reset after sending.
- **Mockup** (`Mockup`): the height and weight counters, moved ±5 and clamped
  to 140–180 and 40–100.
- **Session** (`Session`): the cart-changing actions of all screens put
  together. It shows that no sequence of them breaks the store's invariant
  (one line per product, every quantity at least 1).

The store's invariant is never checked by the store itself. Nothing in
`cartStore.ts` rejects a zero or negative quantity. The invariant holds
because every screen passes `addToCart` and `updateQuantity` a quantity of at
least 1. The model keeps the store as permissive as the code is and proves the
invariant at the level of the screens.

Two behaviours of the store that a caller might not expect:

- `updateQuantity` does not clamp. It stores exactly the quantity it is given,
  even 0 or a negative one. The quantity floor of 1 is applied by the cart
  screen's '−' button (`Math.max(1, quantity - 1)`), not by the store.
- `removeFromCart` after `addToCart` gives back the original cart only when
  the product was absent before (`CartStore.RemoveAfterAdd`). When the product
  was already present, removal deletes the whole line, including the quantity
  that was there before (`CartStore.RemoveAfterAddPresent`).

JavaScript numbers are unbounded integers here. Prices are whole rupiah, and a
rating is kept in tenths of a star (4.8 is 48), which orders ratings the same
way.

## Model

| member | source | states |
|---|---|---|
| Seqs.Filter | src/store/cartStore.ts:36 | `Array.prototype.filter`: the survivors are exactly the elements that pass, none is invented, nothing is dropped when all pass, and something is dropped when one fails |
| Text.TrimStart | src/screens/HomeScreen.tsx:46 | the leading part of `trim`: the result is a suffix, everything dropped is white space, and the result does not start with white space |
| Text.TrimEnd | src/screens/HomeScreen.tsx:46 | the trailing part of `trim`: the result is a prefix, everything dropped is white space, and the result does not end with white space |
| Text.Trim | src/screens/HomeScreen.tsx:46 | `trim`: the result is the part of the query between a leading and a trailing run of white space, and it neither starts nor ends with white space; a query with no white space at either end is kept whole |
| Text.TrimEmptyIff | src/screens/HomeScreen.tsx:46 | `query.trim()` is falsy exactly when every character of the query is white space |
| Text.Lower | src/screens/HomeScreen.tsx:47-52 | `toLowerCase`: same length, each ASCII capital becomes its small letter, every other character is kept, and no capital is left |
| Text.LowerIdempotent | src/screens/HomeScreen.tsx:47 | lowercasing twice equals lowercasing once |
| Text.LowerKeepsSpace | src/screens/HomeScreen.tsx:46-47 | lowercasing neither creates nor removes white space, so it does not change whether the search runs |
| Text.Includes | src/screens/HomeScreen.tsx:50-52 | `includes`: the empty needle is found everywhere, a needle found is never longer than the haystack, and a prefix is always found |
| Text.IncludesIff | src/screens/HomeScreen.tsx:50-52 | `hay.includes(needle)` holds exactly when the needle occurs at some position of the haystack |
| CartStore.TotalPrice | src/store/cartStore.ts:48-53 | the sum of price × quantity over the lines is never negative when no price or quantity is negative |
| CartStore.TotalItems | src/store/cartStore.ts:55-57 | the item count is at least the number of lines when every quantity is positive |
| CartStore.InitialItems | src/store/cartStore.ts:15 | the store starts valid and empty, holding no product, with both totals 0 |
| CartStore.Find | src/store/cartStore.ts:19 | `items.find` by id: nothing exactly when no line carries the id, otherwise the first line that does |
| CartStore.MapQuantity | src/store/cartStore.ts:22-26 | the shared `items.map`: same length and snapshots, matching lines get the new quantity, other lines are untouched |
| CartStore.AddToCart | src/store/cartStore.ts:17-31 | an existing line accumulates `old + q` and keeps its snapshot, with length and order unchanged; otherwise exactly one line `{product, q}` is appended at the end |
| CartStore.RemoveFromCart | src/store/cartStore.ts:34-37 | afterwards no line carries the id; every other line survives; an absent id changes nothing; a present id shortens the cart |
| CartStore.UpdateQuantity | src/store/cartStore.ts:39-44 | the matching line's quantity is overwritten with exactly `q` (no clamping), everything else is unchanged, and an absent id is a no-op |
| CartStore.ClearCart | src/store/cartStore.ts:46 | after clearing, no product is held and both totals are 0 |
| CartStore.GetTotalPrice | src/store/cartStore.ts:48-53 | the left-to-right `reduce` starting at 0 computes the sum of price × quantity |
| CartStore.GetTotalItems | src/store/cartStore.ts:55-57 | the left-to-right `reduce` starting at 0 computes the sum of the quantities |
| CartStore.TotalPriceAppend | src/store/cartStore.ts:48-53 | the total price of a concatenation is the sum of the parts' totals |
| CartStore.TotalItemsAppend | src/store/cartStore.ts:55-57 | the item count of a concatenation is the sum of the parts' counts |
| CartStore.MapQuantityAbsent | src/store/cartStore.ts:41-43 | mapping over an id no line carries returns the cart unchanged |
| CartStore.MapQuantityItems | src/store/cartStore.ts:22-26 | with unique ids, rewriting one line's quantity changes the item count by exactly the change in that quantity |
| CartStore.MapQuantityPrice | src/store/cartStore.ts:22-26 | with unique ids, rewriting one line's quantity changes the total price by exactly the change in that line's price × quantity |
| CartStore.AddToCartKeepsValid | src/store/cartStore.ts:19-31 | `addToCart` keeps at most one line per id, and keeps quantities positive when it adds a positive quantity |
| CartStore.AddToCartTotals | src/store/cartStore.ts:17-31 | `getTotalItems` rises by exactly `q`; `getTotalPrice` rises by `q` × the stored line's price if the id was present, else `q` × `p.price` |
| CartStore.AddToCartTotalsPresent | src/store/cartStore.ts:20-27 | when the line exists, the price increase uses the stored snapshot's price, not the price passed in |
| CartStore.AddToCartAccumulatesPresent | src/store/cartStore.ts:19-27 | when the product is present, the line found for its id afterwards is the old line, same snapshot, with `q` added |
| CartStore.AddToCartAccumulatesAbsent | src/store/cartStore.ts:29-31 | when the product is absent, the line found for its id afterwards is the new line `{product, q}`, holding exactly `q` |
| CartStore.FindUnique | src/store/cartStore.ts:19 | with unique ids, `find` returns the line at whatever index carries the id |
| CartStore.AddAllAccumulates | src/store/cartStore.ts:17-31 | repeated `addToCart` of one product adds up all the quantities on a single line and keeps ids unique |
| CartStore.RemoveFromCartAppend | src/store/cartStore.ts:36 | removal distributes over concatenation, so the surviving lines keep their relative order |
| CartStore.RemoveAfterAdd | src/store/cartStore.ts:29-37 | adding an absent product and then removing it restores the original cart |
| CartStore.RemoveAfterAddPresent | src/store/cartStore.ts:20-37 | adding a present product and then removing it equals removing it, which is not the original cart |
| CartStore.RemoveIgnoresMapQuantity | src/store/cartStore.ts:22-26 | removing an id undoes any quantity rewrite of that id |
| CartStore.RemoveExactlyOne | src/store/cartStore.ts:34-37 | with unique ids, removing line `i`'s id deletes exactly line `i` and keeps the rest in order |
| CartStore.RemoveFromCartKeepsPositive | src/store/cartStore.ts:36 | removal keeps every remaining quantity positive |
| CartStore.RemoveFromCartKeepsAbsent | src/store/cartStore.ts:36 | removal never introduces an id that was not there |
| CartStore.RemoveFromCartKeepsUnique | src/store/cartStore.ts:36 | removal keeps at most one line per id |
| CartStore.RemoveFromCartKeepsValid | src/store/cartStore.ts:34-37 | removal keeps the store's invariant |
| CartStore.UpdateQuantityOverwrites | src/store/cartStore.ts:39-44 | the line for the id afterwards holds exactly the new quantity (it overwrites, not accumulates), and the item count changes by new − old |
| CartStore.UpdateQuantityFindsLine | src/store/cartStore.ts:41-43 | with unique ids, the line found for the id afterwards is the old line with exactly the new quantity |
| CartStore.UpdateQuantityKeepsValid | src/store/cartStore.ts:39-44 | `updateQuantity` keeps ids unique, and keeps the invariant when the new quantity is at least 1 |
| CartStore.ApplyAllKeepsValid | src/store/cartStore.ts:14-58 | any sequence of store calls keeps ids unique, and keeps the invariant when every call passes a quantity of at least 1 |
| HomeScreen.IsSale | src/screens/HomeScreen.tsx:31-33 | a product with no original price, or one equal to its price, is not on sale; a product on sale is discounted by at least 1 rupiah |
| HomeScreen.CategoryStage | src/screens/HomeScreen.tsx:31-44 | no selection or 'All' passes everything; 'Sale' keeps exactly the products whose original price exceeds the price; any other label keeps exactly that category |
| HomeScreen.CategoryStageAppend | src/screens/HomeScreen.tsx:38-44 | the category stage distributes over concatenation, so the products it keeps stay in catalog order |
| HomeScreen.SearchStage | src/screens/HomeScreen.tsx:46-54 | a blank query passes everything; otherwise a product survives exactly when the lowercased untrimmed query occurs in its lowercased name, brand ('' if absent) or category |
| HomeScreen.SearchStageAppend | src/screens/HomeScreen.tsx:46-54 | the search stage distributes over concatenation, so the products it keeps stay in catalog order |
| HomeScreen.SearchIgnoresQueryCase | src/screens/HomeScreen.tsx:46-53 | a query and its lowercased form select the same products |
| HomeScreen.BlankQueryKeepsAll | src/screens/HomeScreen.tsx:46 | a query of only white space leaves the list as it is |
| HomeScreen.Insert | src/screens/HomeScreen.tsx:56-62 | inserting into a sorted list keeps it sorted and adds exactly one element |
| HomeScreen.Sort | src/screens/HomeScreen.tsx:56-62 | the sort returns a sorted permutation of its input |
| HomeScreen.SortedMeaning | src/screens/HomeScreen.tsx:56-62 | each comparator's order: prices nondecreasing, prices nonincreasing, or ratings nonincreasing |
| HomeScreen.InsertStable | src/screens/HomeScreen.tsx:56-62 | an inserted product comes before every product already present with the same key |
| HomeScreen.InsertStablePast | src/screens/HomeScreen.tsx:56-62 | the same when the insertion passes a product with a smaller key |
| HomeScreen.SortStable | src/screens/HomeScreen.tsx:56-62 | the sort is stable: products with equal keys keep their relative order |
| HomeScreen.StagesMembers | src/screens/HomeScreen.tsx:38-54 | the category stage followed by the search stage keeps exactly the products passing both |
| HomeScreen.FilteredProducts | src/screens/HomeScreen.tsx:35-65 | the result holds exactly the catalog products that pass both stages, never more often than the catalog does, in the order the selected sort asks for |
| HomeScreen.FilteredIsPermutationOfStages | src/screens/HomeScreen.tsx:56-64 | the result is a permutation of what the two filter stages keep |
| HomeScreen.FilteredTiesKeepOrder | src/screens/HomeScreen.tsx:35-65 | products with equal keys appear in the order the filter stages left them |
| HomeScreen.TrendingProducts | src/screens/HomeScreen.tsx:67-73 | exactly the catalog products badged 'Flash Sale' or 'Best Seller' |
| HomeScreen.TrendingKeepsCatalogOrder | src/screens/HomeScreen.tsx:69-71 | the trending strip distributes over concatenation, so it keeps catalog order |
| HomeScreen.PressSortChip | src/screens/HomeScreen.tsx:147-168 | 'Populer' always selects the rating order; the price chip gives descending exactly when the order was ascending, and ascending otherwise |
| HomeScreen.PriceChipToggles | src/screens/HomeScreen.tsx:164-168 | two presses of the price chip from a price order return to it |
| HomeScreen.PressCategoryChip | src/screens/HomeScreen.tsx:198-204 | the 'All' chip clears the selection; any other chip selects its own label |
| HomeScreen.AllChipKeepsEverything | src/screens/HomeScreen.tsx:38-44 | after the 'All' chip, the category stage passes every product |
| HomeScreen.PressFlashSaleHero | src/screens/HomeScreen.tsx:112 | the hero button selects an active category label other than 'Sale' |
| HomeScreen.FlashSaleHeroShowsNothing | src/screens/HomeScreen.tsx:42 | the hero label is compared with `category`, so over the shipped categories the stage keeps nothing, not even products badged 'Flash Sale' |
| HomeScreen.HandleAddToCart | src/screens/HomeScreen.tsx:75-77 | ADD is `addToCart(product, 1)`: a line holding the product gains exactly one, other lines are untouched, and an absent product is appended as a one-item line |
| HomeScreen.HandleAddToCartAddsOne | src/screens/HomeScreen.tsx:75-77 | ADD keeps the cart valid and adds exactly one item of that product |
| CartScreen.Decrement | src/screens/CartScreen.tsx:108 | '−' sets the line to `max(1, q − 1)`, which is never below 1, and leaves a line at 1 as it is |
| CartScreen.Increment | src/screens/CartScreen.tsx:117 | '+' sets the line to `q + 1` and leaves other lines as they are |
| CartScreen.StepperTotals | src/screens/CartScreen.tsx:106-122 | '+' adds one item; '−' removes one item unless the line holds one |
| CartScreen.Press | src/screens/CartScreen.tsx:106-122 | a stepper press keeps the number of lines and every line's product; the pressed line holds `q + 1` after '+' and `max(1, q − 1)` after '−' |
| CartScreen.PressKeepsValid | src/screens/CartScreen.tsx:106-122 | one stepper press keeps the cart valid, its length and every line's product |
| CartScreen.PressAllKeepsLines | src/screens/CartScreen.tsx:106-122 | any sequence of stepper presses keeps every quantity at least 1 and never removes, reorders or changes a line's product |
| CartScreen.HandleCheckout | src/screens/CartScreen.tsx:23-31 | the checkout form opens exactly when the cart has a line; an empty cart leads home |
| CartScreen.HandleRemove | src/screens/CartScreen.tsx:33-39 | the delete button removes that line's id and keeps every line of another id |
| CartScreen.HandleRemoveDeletesThatLine | src/screens/CartScreen.tsx:126 | in a valid cart, the delete button removes exactly its own line and keeps the cart valid |
| CartScreen.HandleClearCart | src/screens/CartScreen.tsx:41-54 | 'Batal' leaves the cart unchanged; 'Hapus' empties it with both totals 0 |
| ProductDetail.FirstOrNull | src/screens/ProductDetailScreen.tsx:24-29 | the default is the first entry exactly when the list is present, non-empty and its first entry is truthy; otherwise null |
| ProductDetail.Open | src/screens/ProductDetailScreen.tsx:23-29 | the page opens with quantity 1 and the default size and color |
| ProductDetail.Step | src/screens/ProductDetailScreen.tsx:111-181 | '−' gives `max(1, q − 1)` and '+' gives `q + 1`, both keeping the size and color; picking a size or color sets only that selection and keeps the quantity; a quantity of at least 1 stays at least 1 |
| ProductDetail.RunKeepsQuantityPositive | src/screens/ProductDetailScreen.tsx:23-181 | any sequence of presses keeps the quantity at least 1 and at most the start plus the number of presses |
| ProductDetail.QuantityIgnoresSelection | src/screens/ProductDetailScreen.tsx:111-181 | the quantity reached does not depend on the sizes and colors picked |
| ProductDetail.HandleAddToCart | src/screens/ProductDetailScreen.tsx:38-39 | 'Add to Cart' is `addToCart(product, quantity)`: a line holding the product gains the page's quantity, other lines are untouched, and an absent product is appended with that quantity |
| ProductDetail.HandleAddToCartAddsQuantity | src/screens/ProductDetailScreen.tsx:38-39 | 'Add to Cart' adds exactly the page's quantity (at least 1), keeps the cart valid, and does not depend on the size or color selected |
| Checkout.InitialForm | src/screens/CheckoutScreen.tsx:19-23 | the form opens with name, email, phone and address empty and the WhatsApp switch on |
| Checkout.HandleCheckout | src/screens/CheckoutScreen.tsx:30-58 | the order is placed exactly when name, email, phone and address are all non-empty; a rejected order leaves the cart; a placed one empties it |
| Checkout.WhatsAppIrrelevant | src/screens/CheckoutScreen.tsx:23-34 | the WhatsApp switch plays no part in the outcome or the cart |
| Checkout.InitialFormRejected | src/screens/CheckoutScreen.tsx:19-34 | the form as it opens is rejected, whatever the cart holds |
| Checkout.EmptyCartPlaced | src/screens/CheckoutScreen.tsx:30-36 | the check ignores the cart: a filled-in form places an order even for an empty cart |
| Checkout.SummaryRows | src/screens/CheckoutScreen.tsx:68-77 | there is one summary row per line, in cart order, each showing that line's price × quantity |
| Checkout.SummaryRowsSumToTotal | src/screens/CheckoutScreen.tsx:74-81 | the summary rows add up to the total shown under them |
| Contact.EmptyForm | src/screens/ContactScreen.tsx:18-24 | every field of the initial and reset form is empty |
| Contact.HandleInputChange | src/screens/ContactScreen.tsx:27-29 | the changed field holds the new value and the other four are unchanged |
| Contact.InputChangeOverwrites | src/screens/ContactScreen.tsx:27-29 | writing a field's own value changes nothing, and the last of two writes to a field wins |
| Contact.InputChangesCommute | src/screens/ContactScreen.tsx:27-29 | changes to different fields commute |
| Contact.HandleSubmit | src/screens/ContactScreen.tsx:31-62 | the message is sent exactly when name, email and message are non-empty; a rejected form is kept; a sent one is reset to all empty |
| Contact.PhoneAndSubjectOptional | src/screens/ContactScreen.tsx:33 | the phone and subject do not affect whether the form is accepted |
| Contact.EmptyFormRejected | src/screens/ContactScreen.tsx:18-36 | submitting the form as it opens is rejected and leaves it empty |
| Mockup.Initial | src/components/MockupProduct.tsx:27-28 | the mockup opens at 165 cm and 55 kg, in range and on the 5-step grid |
| Mockup.Press | src/components/MockupProduct.tsx:97-149 | each button moves only its own value by 5, clamps it to 140–180 or 40–100, and keeps the range and the grid |
| Mockup.PressAtBoundStays | src/components/MockupProduct.tsx:97-149 | −5 at a lower bound and +5 at an upper bound leave the value unchanged |
| Mockup.ReachableInRangeOnGrid | src/components/MockupProduct.tsx:97-149 | from an in-range, on-grid state, every reachable state is in range and on the grid |
| Mockup.FromInitial | src/components/MockupProduct.tsx:27-149 | from the opening values, every reachable height is 140 + 5k (0 ≤ k ≤ 8) and every weight is 40 + 5m (0 ≤ m ≤ 12) |
| Session.Step | src/screens/CartScreen.tsx:41-126 | one user action on the cart: the cart screen's stepper keeps the number of lines and every line's product, its delete button shortens the cart, and its clear dialog leaves the cart as it is on 'Batal' and makes it empty on 'Hapus'; ADD on the grid (`HomeScreen.HandleAddToCart`) or on the product page (`ProductDetail.HandleAddToCart`) grows the cart by at most one line; a rejected order (`Checkout.HandleCheckout`) leaves the cart as it is, and a placed one makes it empty |
| Session.StepKeepsValid | src/screens/CartScreen.tsx:106-126 | each cart-changing action of any screen keeps the store's invariant |
| Session.RunKeepsValid | src/store/cartStore.ts:14-58 | no sequence of user actions produces a duplicate line or a quantity below 1 |
| Session.TwoLineExample | src/utils/constants.ts:31-96 | product '1' (450000) added twice and product '4' (350000) once give two lines, a total of 1250000 and 3 items |

## Left out

- `src/services/api.ts` is not part of this model. It is an HTTP client, and no screen calls it.
- `formatPrice` is not modelled. It wraps `Intl.NumberFormat`, a foreign library. Totals are modelled as the integers it would format.
- Floating-point display arithmetic is not modelled: discount percentages with `Math.round`, the mockup's scale factors and slider widths, and star strings.
- Lowercasing changes only the ASCII letters `A`–`Z`. Unicode case mapping is outside the model.
- `setTimeout` delays, `Alert` dialogs, `InteractionManager`, navigation calls and `Linking` URLs are not modelled. A dialog's button becomes a parameter (`ClearChoice`), and a success alert's OK is folded into one synchronous step.
- The `isLoading` and `isSubmitting` flags are not modelled. They only disable buttons while the simulated request runs.
- Rendering, the React hook and zustand plumbing, and every `StyleSheet` block are not modelled.
- The static `PRODUCTS` and `CATEGORIES` tables are data, not logic. The catalog is a parameter. Only products '1' and '4' appear, as the concrete example, and the shipped category names appear as the hypothesis of `HomeScreen.FlashSaleHeroShowsNothing`.
- JavaScript number limits are not modelled. Prices, quantities and totals are unbounded integers. Ratings are whole tenths of a star.
- Contact.HandleInputChange: the field is one of the five form keys. The source accepts any string, and an unknown key would add a new property.
- A cart line keeps the product as a nested snapshot. The source spreads the product's fields into the line instead. The fields are the same either way.
- The product page's size and color buttons offer only entries of the product's lists. The model accepts any string, which is a superset of those choices.
