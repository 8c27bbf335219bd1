# Leafy Lane cart store, modelled in Dafny

Leafy Lane is a small storefront for houseplants. Its only logic is in
`src/App.jsx`:

- a fixed catalogue of six products;
- a Redux cart slice that keeps a map from product id to quantity and changes
  it through five reducers: `addItem`, `increase`, `decrease`, `remove` and
  `clear`;
- two selectors that derive the total item count and the total cost;
- the shop page's grouping of the catalogue by category.

This project models those four parts and proves what they promise.

- `catalog.dfy` (module `Catalog`) holds the catalogue. It also has `Find`,
  the array `find` by id, and `PriceOf`, which gives 0 for an unknown id.
- `cart.dfy` (module `CartStore`) holds the class `Cart`. Its one field is
  `items: map<string, int>`, and it has one method per reducer. Each method
  updates the map in place, as the Immer draft does. Each method except
  `Clear` is proved against a pure transition function: `Added`, `Decreased`
  or `Removed`. `Clear` states its new state, the empty map, directly. The
  lemmas about repeated calls use those functions.
- `totals.dfy` (module `Totals`) holds the selectors. Each is a left fold,
  from 0, over an enumeration of the cart's ids. The enumeration order is an
  input. Each selector is proved equal to an order-free sum over the map, so
  any enumeration gives the same result. Lemmas give the exact change in both
  totals under each transition.
- `grouping.dfy` (module `Grouping`) holds the category grouping. It is a fold
  over the catalogue and is proved to be a partition. The groups come in
  first-seen order. Each group holds its products in catalogue order.
- `storefront.dfy` (module `Storefront`) is a client of the store. It follows
  one cart journey from empty to empty and reads both totals after every
  transition.

The reducers test `!state.items[id]`. That test is true for an absent id and
also for a stored quantity of 0. The predicate `CartStore.Held` negates it,
so the model takes the code's branches even in states that no sequence of
transitions reaches. The map's value type is therefore `int`, not `nat`. The
store invariant "every stored quantity is at least 1" is
`CartStore.AllPositive` (the class's `Valid()`). Every transition preserves
it.

The store does not check that a cart key is a catalogue id: `addItem` accepts
any string. So the model accepts any id, and the cost selector counts an
unknown id as 0.

## Model

| member | source | states |
|---|---|---|
| `Catalog.Products` | src/App.jsx:9-52 | The `PRODUCTS` catalogue itself: six products with their ids, names, prices and categories, in source order. Its properties are stated by `CatalogWellFormed` and `Grouping.CatalogGroups`. |
| `Catalog.CatalogWellFormed` | src/App.jsx:9-52 | The catalogue's ids are pairwise distinct and every price is positive. |
| `Catalog.IndexOf` | src/App.jsx:100 | The search stops at the first product with the id. No earlier product has it. The result is the length when no product has it. |
| `Catalog.Find` | src/App.jsx:100 | `PRODUCTS.find` by id returns None exactly when no product has the id. Otherwise it returns the first product with that id. |
| `Catalog.FindUnique` | src/App.jsx:100 | With unique ids, finding the id of the k-th product returns that product. |
| `Catalog.PriceOf` | src/App.jsx:100-101 | The price used for an id is non-negative. It is 0 exactly when no catalogue product has the id. Otherwise it is that product's price. |
| `CartStore.Held` | src/App.jsx:61-76 | The negation of the test `!state.items[id]`. It holds only for a present id. On a cart whose quantities are all at least 1 it holds exactly for the present ids. `Added`, `Decreased` and the class methods branch on it. |
| `CartStore.Added` | src/App.jsx:61-65 | After `addItem(id)`, an absent id has quantity 1 and a held id has gained exactly 1. A stored 0 counts as absent, as the truthiness test does. The keys become the old keys plus `id`. Every other entry is unchanged. The invariant that all quantities are at least 1 is preserved. |
| `CartStore.Decreased` | src/App.jsx:71-76 | `decrease(id)` leaves the state unchanged when the id is not held. A quantity above 1 drops by 1 and the key set is kept. A quantity of 1 or less deletes the key. Other entries are unchanged and the invariant is preserved. |
| `CartStore.Removed` | src/App.jsx:77-80 | After `remove(id)`, the keys are the old keys minus `id`, and every remaining entry is unchanged. The invariant is preserved. |
| `CartStore.RemoveIdempotent` | src/App.jsx:77-80 | Removing an id twice gives the same state as removing it once. |
| `CartStore.DecreaseAbsentIsNoop` | src/App.jsx:71-73 | Decreasing an id that is not in the cart leaves the state identical. |
| `CartStore.AddTimesFromAbsent` | src/App.jsx:61-65 | n ≥ 1 calls to `addItem(x)` on an absent x give `items[x := n]`. Quantity n, nothing else changed. |
| `CartStore.DecreaseTimesFromHeld` | src/App.jsx:71-76 | From a quantity q ≥ 1, k decreases leave q − k while k < q. Once k ≥ q the key is deleted. The quantity 0 is never stored. |
| `CartStore.AddThenDecreaseRestores` | src/App.jsx:61-76 | n additions of an absent id, then n decreases, give back exactly the original state. The id is gone again. |
| `CartStore.Cart.constructor` | src/App.jsx:57-59 | The slice's initial state is the empty cart, which satisfies the invariant. |
| `CartStore.Cart.AddItem` | src/App.jsx:61-65 | The in-place reducer leaves `items == Added(old(items), id)` and keeps the invariant. |
| `CartStore.Cart.Increase` | src/App.jsx:66-70 | `increase` leaves `items == Added(old(items), id)`. That is the same new state as `AddItem` for every state and id. |
| `CartStore.Cart.Decrease` | src/App.jsx:71-76 | The in-place reducer, including its early return, leaves `items == Decreased(old(items), id)` and keeps the invariant. |
| `CartStore.Cart.Remove` | src/App.jsx:77-80 | The in-place `delete` leaves `items == Removed(old(items), id)` and keeps the invariant. |
| `CartStore.Cart.Clear` | src/App.jsx:81-83 | `clear` leaves the empty map whatever the prior state. Its count is then 0, by `Totals.QtySumAtLeastSize`. |
| `Totals.Cost` | src/App.jsx:100-101 | One entry's term `p ? p.price * qty : 0`. It is the catalogue price times the quantity for a catalogue id, and 0 for an id missing from the catalogue. |
| `Totals.Fold` | src/App.jsx:93-103 | The `reduce(..., 0)` itself, left to right over the listed ids. `FoldIsSum`, `TotalCount` and `TotalCost` state its properties. |
| `Totals.SumByRemove` | src/App.jsx:94-103 | The order-free sum over the cart can take out any one entry first. This is why the result of the folds does not depend on enumeration order. |
| `Totals.QtySumAtLeastSize` | src/App.jsx:94-96 | The empty cart has item count 0. A cart whose quantities are all at least 1 has count at least its number of entries. |
| `Totals.CostSumNonNegative` | src/App.jsx:98-103 | A cart whose quantities are all at least 1 never has a negative total cost. |
| `Totals.FoldIsSum` | src/App.jsx:94-103 | The `reduce` from 0 over a duplicate-free list of ids equals the order-free sum over exactly the listed entries. |
| `Totals.TotalCount` | src/App.jsx:94-96 | `selectTotalCount` is the sum of all quantities for every enumeration order. Under the invariant it is at least the number of entries, and it is 0 exactly when the cart is empty. |
| `Totals.TotalCost` | src/App.jsx:98-103 | `selectTotalCost` is the sum of price × quantity over the entries for every enumeration order. Unknown ids add 0. Under the invariant it is non-negative. |
| `Totals.AddedTotals` | src/App.jsx:61-65 | `addItem`/`increase` raise the count by exactly 1 and the cost by exactly the id's price. |
| `Totals.DecreasedTotals` | src/App.jsx:71-76 | On a cart that keeps the invariant, `decrease` lowers the count by 1 and the cost by the id's price when the id is present. Otherwise neither changes. |
| `Totals.RemovedTotals` | src/App.jsx:77-80 | `remove` lowers the count by the id's whole quantity and the cost by price × quantity. An absent id changes neither. |
| `Totals.SumByUpdate` | src/App.jsx:63-64 | Overwriting one id's quantity changes a total by exactly the difference between that id's new term and its old term. An absent id's old term is 0. |
| `Totals.CostStep` | src/App.jsx:101 | One more unit of an id adds exactly its price to that entry's cost. Quantity 0 costs nothing. |
| `Totals.ExampleCount` | src/App.jsx:94-96 | `{aloe: 2, snake: 1}` gives count 3. |
| `Totals.ExampleCost` | src/App.jsx:98-103 | `{aloe: 2, snake: 1}` gives cost 2·499 + 899 = 1897, in either enumeration order. |
| `Grouping.Place` | src/App.jsx:215-216 | One step of the grouping `reduce`. It appends the product to the group of its category, or opens that group at the end. `PlaceKeepsGroups` states its property. |
| `Grouping.GroupByCategory` | src/App.jsx:214-218 | The grouping `reduce` itself. `GroupByCategoryIsPartition`, `EachProductInOneGroup` and `CatalogGroups` state its properties. |
| `Grouping.GroupIndex` | src/App.jsx:215 | The lookup `acc[p.category]` finds the first group with that category, or reports that there is none. |
| `Grouping.Categories` | src/App.jsx:214-218 | The categories seen in the catalogue, each exactly once. A category is listed iff some product has it. |
| `Grouping.InCategory` | src/App.jsx:214-218 | The products of one category, in catalogue order. A product is listed iff it is in the catalogue with that category. |
| `Grouping.PlaceKeepsGroups` | src/App.jsx:215-216 | One fold step keeps the groups matching the categories seen so far. It appends to an existing group or opens a new group at the end. |
| `Grouping.GroupByCategoryIsPartition` | src/App.jsx:214-218 | The grouping has one group per category in first-seen order. Group i holds exactly the products of category i, in catalogue order. |
| `Grouping.EachProductInOneGroup` | src/App.jsx:214-218 | Every product appears in the group keyed by its own category and in no other. No category keys two groups. |
| `Grouping.CatalogGroups` | src/App.jsx:9-52 | The six plants form four groups: Succulents [aloe], Low Light [snake, pothos], Tropical [monstera, fern], Flowering [peace-lily]. |
| `Storefront.JourneyStates` | src/App.jsx:61-76 | From the empty cart: `addItem("aloe")` gives `{aloe: 1}` and `increase` gives `{aloe: 2}`. A `decrease` gives `{aloe: 1}` and a second one gives the empty cart. |
| `Storefront.AloeOnlyTotals` | src/App.jsx:94-103 | A cart holding q of aloe and nothing else shows q items costing 499·q. |
| `Storefront.AloeJourney` | src/App.jsx:61-103 | Starting empty: after `addItem("aloe")` the count is 1 and the cost 499. After `increase` they are 2 and 998. After the first `decrease` they are 1 and 499 again. After the second `decrease` the cart is empty, with count 0 and cost 0. |

## Left out

- The React views, routing, the Redux store and `Provider` wiring, and the
  `createSelector` memoisation are UI and framework plumbing. The selectors
  are modelled as pure functions of the cart map.
- `formatINR` is left out. It delegates to `Intl.NumberFormat`, a foreign
  library.
- Animations, the checkout `alert` stub and the product `img` URLs have no
  effect on state. The `Product` datatype has no image field.
- The order of `Object.values`/`Object.entries` is left out. The selectors
  take the enumeration as an argument and are proved not to depend on it. The
  cart page's row order, which is insertion order, is therefore not modelled.
- `Totals.TotalCount` and `Totals.TotalCost` are stated with the numbers as
  exact integers. JavaScript numbers are doubles, which lose precision beyond
  2^53. That is not modelled here, and it is not modelled in three more places:
  the `+= 1` of `addItem` and `increase` (src/App.jsx:64, 69, in
  `CartStore.Added`), the `-= 1` of `decrease` (src/App.jsx:74, in
  `CartStore.Decreased`), and the `p.price * qty` of the cost selector
  (src/App.jsx:101, in `Totals.Cost`).
- Cart keys and category keys are plain map or sequence keys. On a JavaScript
  object, names of inherited properties (`constructor`, `__proto__`) behave
  differently. That is not modelled for the cart's `state.items[id]`
  (src/App.jsx:63-79). It is not modelled for the grouping's
  `acc[p.category] || []` (src/App.jsx:215) either, where
  `Grouping.GroupByCategory` accepts any list of products. No catalogue id or
  category is such a name.
- `Grouping.GroupByCategoryIsPartition` lists groups in first-seen order.
  `Object.entries` would list integer-like category names first. No catalogue
  category is integer-like, so this does not arise.
