# Storefront cart, catalog and payment rules in Dafny

This project models the logic of a client-side storefront: the shopping
cart's reducer and the provider around it that loads and saves the cart,
the catalog queries, and the payment configuration rules. Everything else
in the storefront is React rendering.

- `types.dfy` (`Types`): the records the logic reads. `Product` keeps id,
  name, price, category and description. `CartItem` pairs a product with a
  quantity. `Cart` holds items, `total` and `itemCount`. `PaymentProvider`
  keeps id, name, `enabled` and a config map of credential strings.
  Catalog prices are whole numbers, so prices and totals are `int`.
- `seqs.dfy` (`Seqs`): `find` and `filter` as the JavaScript array methods
  behave, with their lemmas: first match; membership; order, via
  distribution over `+` and being a subsequence; idempotence.
- `cart_reducer.dfy` (`CartReducer`): the action union and
  `cartReducer` as the pure function `Reduce`. `Total` and `ItemCount` are
  the two folds the reducer reruns over the whole item list.
- `cart_store.dfy` (`CartStore`): the cart provider as a class `Store`.
  It has the live `cart`, the `isLoading` flag and `storage`, a map from
  key to cart that stands for the browser's local storage. The four consumer
  operations dispatch to the reducer. `FinishLoad` is the one startup load.
  `Save` is the effect that writes the cart under `"nader-cart"` only when the
  flag is clear. The invariant `Valid()` says that, once loading is over,
  the stored snapshot is the live cart.
- `products.dfy` (`Products`): the six-product catalog; lookup by id,
  filter by category, case-insensitive search (ASCII lowercasing and
  `includes`), and the category list with counts.
- `payment.dfy` (`Payment`): the provider table (the environment's
  credential strings passed in as `Credentials`); active provider choice,
  the configured check, the setup report and the shipping fee.

The catalog and payment queries take the table they run over as a
parameter. `Catalog` and `Providers(env)` are the shipped tables, and
separate lemmas state what the queries give on them.

In these details the model follows the code exactly:

- A failed or empty startup read keeps the cart as it is. It is not
  reset to empty, so mutations made before the load survive it.
- A stored snapshot replaces any mutations made before the load
  finishes.
- Clearing the flag makes the save effect run, so finishing the load
  writes the cart once even when nothing was read.
- `LOAD_CART` installs the loaded cart verbatim. Its aggregates match
  its items only if the snapshot's did.
- The action union also contains `SET_LOADING`. The reducer has no case
  for it, so it falls through to the default branch and leaves the cart
  unchanged.
- Adding a product that is already in the cart keeps the entry's
  original product record and only raises its quantity. The total
  therefore moves by the stored entry's price.

Two client methods of `CartStore` run the store through whole sessions.
`EarlyMutationSession` shows that a mutation made while the load is still
pending is not written, and that the stored snapshot then replaces it. `MugSession` runs the mug scenario
through the store and ends with every step saved under `"nader-cart"` and
the stored cart equal to the empty cart after the final removal.

Each table row names the lemma or method whose contract states the
property. Where that member is about a function modelling a source
function, the row names the function in its third column.

## Model

| member | source | states |
|---|---|---|
| CartReducer.Reduce | src/contexts/CartContext.tsx:23-112 | after add, remove, update and clear, `total` is the price × quantity fold and `itemCount` the quantity fold over the new items |
| CartReducer.TotalAppend | src/contexts/CartContext.tsx:41-48 | the folds `Total` and `ItemCount` (the two `reduce` calls) distribute over concatenation of item lists |
| CartReducer.TotalReplace | src/contexts/CartContext.tsx:87-94 | replacing one item changes each fold by the difference between the new and old item |
| CartReducer.TotalDrop | src/contexts/CartContext.tsx:61-68 | dropping one item lowers each fold by that item |
| CartReducer.AddExisting | src/contexts/CartContext.tsx:26-54 | for `AddItems`: adding a product whose id has a single entry changes only that entry's quantity (+quantity), keeping length and order; total rises by that entry's price × quantity and itemCount by quantity |
| CartReducer.AddNew | src/contexts/CartContext.tsx:37-54 | for `AddItems`: adding a product not present appends exactly one item at the end; the aggregates rise by its price × quantity and its quantity |
| CartReducer.AddKeepsUniqueIds | src/contexts/CartContext.tsx:25-39 | after an add the product is in the cart, and one entry per id is preserved |
| CartReducer.AddTwice | src/contexts/CartContext.tsx:25-39 | adding a new product twice yields one entry holding the summed quantity, never two entries |
| CartReducer.RemoveSpec | src/contexts/CartContext.tsx:57-60 | for `RemoveItems`: removal drops every item with the id and keeps every other item exactly as often as before, as a subsequence in order, and changes no item when the id is absent |
| CartReducer.RemoveExisting | src/contexts/CartContext.tsx:57-74 | removing the id of a single entry leaves the items before and after it and lowers the aggregates by that entry |
| CartReducer.RemoveIdempotent | src/contexts/CartContext.tsx:57-74 | removing the same id twice gives the same cart as removing it once |
| CartReducer.UpdateNonPositiveIsRemove | src/contexts/CartContext.tsx:78-80 | an update with quantity ≤ 0 gives exactly the cart that removal gives |
| CartReducer.UpdatePositive | src/contexts/CartContext.tsx:82-86 | for `SetQuantity`: a positive update sets the quantity of every matching item, keeps each product, length, order and every other item, and leaves the items as they were for an absent id |
| CartReducer.UpdateExisting | src/contexts/CartContext.tsx:82-100 | a positive update of a single entry replaces only that entry and moves the aggregates by price × (new − old quantity) and (new − old quantity) |
| CartReducer.ClearLoadDefault | src/contexts/CartContext.tsx:103-110 | clear gives `{[], 0, 0}` whatever the prior cart, load gives the supplied cart verbatim, the unhandled action leaves the cart unchanged |
| CartReducer.ReduceKeepsUniqueIds | src/contexts/CartContext.tsx:23-112 | every action keeps at most one entry per product id, a load provided the loaded cart has that property |
| CartReducer.RemoveKeepsUniqueIds | src/contexts/CartContext.tsx:57-60 | filtering out an id keeps at most one entry per product id |
| CartReducer.MugScenario | src/contexts/CartContext.tsx:25-101 | with a 15-unit mug: add 1 gives count 1 total 15, add 2 more gives 3 and 45, update to 1 gives 1 and 15, remove gives the empty cart |
| CartStore.Store.constructor | src/contexts/CartContext.tsx:131-133 | the provider starts with the empty cart, the loading flag set and the storage untouched |
| CartStore.Store.Save | src/contexts/CartContext.tsx:151-159 | the save effect writes the cart under the key iff the loading flag is clear, and changes nothing else |
| CartStore.Store.Dispatch | src/contexts/CartContext.tsx:132-159 | the new cart is the reducer's result; the flag is unchanged; storage is written under the key only when not loading; the invariant `Valid` (the stored snapshot equals the live cart once loading is over) is kept |
| CartStore.Store.FinishLoad | src/contexts/CartContext.tsx:135-148 | the one load replaces the cart by the stored snapshot when the key is present and reading succeeds, otherwise keeps it; the flag becomes false and the cart is then written under the key |
| CartStore.Store.AddToCart | src/contexts/CartContext.tsx:162-164 | dispatches an add with quantity defaulting to 1; the product is then in the cart, aggregates match the items, one entry per id is kept, and storage is written only when not loading |
| CartStore.Store.RemoveFromCart | src/contexts/CartContext.tsx:166-168 | dispatches a removal; no item with the id remains, aggregates match, and storage is written only when not loading |
| CartStore.Store.UpdateQuantity | src/contexts/CartContext.tsx:170-172 | dispatches an update; aggregates match, a non-positive quantity leaves no item with the id, and storage is written only when not loading |
| CartStore.Store.ClearCart | src/contexts/CartContext.tsx:174-176 | dispatches a clear; the cart is `{[], 0, 0}`, and storage is written only when not loading |
| Seqs.Find | src/lib/products.ts:102-104 | nothing is found iff no element satisfies the predicate; what is found is in the sequence and satisfies it |
| Seqs.FindFirst | src/lib/products.ts:102-104 | the element found is the one at the first satisfying index |
| Seqs.FilterMembership | src/lib/products.ts:106-108 | an element is kept iff it is in the input and satisfies the predicate |
| Seqs.FilterAppend | src/lib/products.ts:106-108 | filtering distributes over concatenation, so kept elements keep their relative order |
| Seqs.FilterIsSubsequence | src/contexts/CartContext.tsx:58-60 | the filtered sequence is a subsequence of its input |
| Seqs.FilterMultiplicity | src/contexts/CartContext.tsx:58-60 | each element satisfying the predicate is kept exactly as often as it occurs; every other element is dropped |
| Seqs.FilterIdempotent | src/contexts/CartContext.tsx:58-60 | filtering twice with one predicate equals filtering once |
| Products.GetProductById | src/lib/products.ts:102-104 | nothing is returned iff no product has the id; a returned product is in the catalog and has the id |
| Products.GetProductByIdFirst | src/lib/products.ts:102-104 | the product returned is the first one carrying the id |
| Products.GetProductsByCategorySpec | src/lib/products.ts:106-108 | for `GetProductsByCategory`: exactly the catalog's products of the category, each as often as in the catalog, as a subsequence in catalog order |
| Products.LowerIdempotent | src/lib/products.ts:111 | `Lower` (ASCII `toLowerCase`) applied to a lowercased string changes nothing |
| Products.IncludesSpec | src/lib/products.ts:113-115 | the recursive `Includes` (`String.prototype.includes`) holds iff the needle occurs at some index of the haystack |
| Products.IncludesEmpty | src/lib/products.ts:113-115 | the empty string is included in every string |
| Products.SearchProductsSpec | src/lib/products.ts:110-117 | for `SearchProducts`: a product is found iff it is in the catalog and the lowercased query occurs in its lowercased name, description or category; each match is kept as often as in the catalog, as a subsequence in catalog order |
| Products.SearchEmptyQuery | src/lib/products.ts:110-117 | the empty query returns the whole catalog |
| Products.SearchIgnoresQueryCase | src/lib/products.ts:111 | a query and its lowercased form give the same results |
| Products.DistinctCategoriesSpec | src/lib/products.ts:120 | `DistinctCategories` has no repeats, holds exactly the categories in use, and lists them in first-occurrence order |
| Products.GetCategoriesSpec | src/lib/products.ts:119-125 | for `GetCategories`: each category in use appears once, in first-occurrence order, inactive, with the number of its products as count; the counts sum to the catalog size |
| Products.CountsSumToSize | src/lib/products.ts:121-124 | the per-category counts over the distinct categories add up to the number of products |
| Products.ShippedLookup | src/lib/products.ts:3-104 | in the shipped catalog `black-mug-1` finds the black mug |
| Products.ShippedLookupUnknown | src/lib/products.ts:3-104 | in the shipped catalog an id no product carries (`gift-card-1`) finds nothing |
| Products.ShippedClothes | src/lib/products.ts:3-108 | the shipped catalog's Clothes are the t-shirt and the hoodie, in that order |
| Payment.ActiveProvider | src/lib/payment.ts:45-49 | a result is in the table and is enabled or is the mock one; when any provider is enabled an enabled one is chosen; with none enabled a result exists iff the table has a mock entry |
| Payment.ActiveProviderFirstEnabled | src/lib/payment.ts:45-49 | the active provider is the first enabled one |
| Payment.ActiveProviderFallback | src/lib/payment.ts:45-49 | with nothing enabled the active provider is the first entry with id `mock` |
| Payment.GetActivePaymentProvider | src/lib/payment.ts:7-49 | with the shipped table `Providers` the active provider is the enabled `mock` entry |
| Payment.IsConfigured | src/lib/payment.ts:52-67 | false for an id not in the table and for an id outside paypal, stripe, square and mock; `mock` is configured iff the table holds a mock entry; for paypal, stripe and square the first entry with the id decides, configured iff both of that provider's credentials are present and non-empty |
| Payment.ShippedMockConfigured | src/lib/payment.ts:52-66 | with the shipped table `mock` is configured and any other unknown id is not |
| Payment.ShippedPaypalConfigured | src/lib/payment.ts:7-58 | with the shipped table PayPal is configured iff both its client id and client secret are non-empty |
| Payment.ShippedStripeConfigured | src/lib/payment.ts:18-60 | with the shipped table Stripe is configured iff both its publishable key and secret key are non-empty |
| Payment.ShippedSquareConfigured | src/lib/payment.ts:27-62 | with the shipped table Square is configured iff both its application id and access token are non-empty |
| Payment.BrowserNothingConfigured | src/lib/payment.ts:7-42 | in a browser, where every credential reads as empty, no real provider is configured |
| Payment.InstructionsForKnown | src/lib/payment.ts:71-111 | `InstructionsFor` gives setup instructions exactly for paypal, stripe and square |
| Payment.ValidatePaymentSetupSpec | src/lib/payment.ts:136-145 | for `ValidatePaymentSetup`: for a table of known providers a report exists iff a provider is active; it names the active provider and whether it is configured, and has no instructions iff that provider is `mock`, otherwise its own instructions |
| Payment.ShippedSetup | src/lib/payment.ts:136-145 | as shipped, the report is the mock provider, configured, with no instructions |
| Payment.CalculateShipping | src/lib/payment.ts:161-165 | the fee is one of 0, 5, 10: 0 iff the subtotal is at least 50, 5 iff below 50 with at most two items, 10 iff below 50 with more |
| Payment.ShippingMonotone | src/lib/payment.ts:161-165 | a larger subtotal never raises the fee and more items never lower it |

## Left out

- JSON serialisation and parsing of the snapshot are not modelled. Storage holds `Cart` values directly, so the round trip is the identity by construction. Stored text that is not a cart cannot be expressed.
- Failures reading the snapshot are folded into `FinishLoad`'s `readFails` parameter. This covers `getItem` throwing, `JSON.parse` throwing and a stored empty string, which the source skips as falsy.
- Failures writing the snapshot (`setItem` throwing, quota exceeded) are left out. The model's writes always succeed, so `Valid()` holds unconditionally. In the source a failed write leaves the stored snapshot stale.
- CartStore.Store.Save: runs after every dispatch once loading is over. React skips the effect when the reducer returns the very same object (the unhandled action, or clearing a cart that is already the initial object). Given `Valid()` that write would store the value already stored, so the storage states agree.
- React machinery is not modelled: the context object, `useReducer`/`useEffect` scheduling and the error `useCart` throws outside a provider. The mount effect running exactly once becomes `FinishLoad`'s `requires isLoading`.
- `formatCurrency` (Intl formatting), `calculateTax` (floating-point multiplication) and `processMockPayment` (timers, randomness, asynchrony) are not modelled.
- Environment variable reads in the provider table become the `Credentials` parameter. The `sandbox` flag in PayPal's config is dropped because no rule reads it.
- Products.Lower: lowercases ASCII letters only; `toLowerCase` also lowercases non-ASCII letters.
- Product fields that no rule reads (images, stock flag, stock quantity, features) are dropped.
- The search-then-category composition in the home page component lives in component state and is not modelled.
- Payment.ValidatePaymentSetup: `null` (mock) and `undefined` (an id with no instructions entry) are both `None`. A table with no active provider yields `None` where the source would dereference `undefined`.
- No rule is invented for non-positive quantities on the add path. Quantities are whole numbers (`int`): the source types them as JavaScript `number` (src/types/index.ts:18), but the UI only ever passes whole quantities (src/components/ProductCard.tsx:24, src/components/Cart.tsx:116 and :130). Fractional quantities and `number`'s floating-point precision are not modelled.
