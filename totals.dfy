/**
 The derived queries `selectTotalCount` and `selectTotalCost`.

 Both are left folds over the cart's entries in the order the JavaScript
 object enumerates them. That order is an input here (`keys`, any
 duplicate-free listing of the cart's ids), and each selector is proved equal
 to an order-free sum over the map, so the result does not depend on it.
 */
module Totals {
  import opened Catalog
  import opened CartStore

  /** What one entry adds to the item count: its quantity. */
  function Qty(id: string, qty: int): int
  {
    qty
  }

  /**
   What one entry adds to the cost: `p ? p.price * qty : 0`, which is the
   catalogue price times the quantity since `PriceOf` is 0 for an unknown id.
   */
  function Cost(id: string, qty: int): (r: int)
    ensures forall p | p in Products() && p.id == id :: r == p.price * qty
    ensures (forall p | p in Products() :: p.id != id) ==> r == 0
  {
    PriceOf(id) * qty
  }

  /** The sum of `f(id, qty)` over all entries of `m`, in no particular order. */
  ghost function SumBy(m: map<string, int>, f: (string, int) -> int): int
    decreases |m|
  {
    if m == map[] then 0
    else
      var k :| k in m;
      assert |(m - {k}).Keys| < |m.Keys| by {
        assert (m - {k}).Keys == m.Keys - {k};
      }
      f(k, m[k]) + SumBy(m - {k}, f)
  }

  /** Sum of all quantities. */
  ghost function QtySum(m: map<string, int>): int
  {
    SumBy(m, Qty)
  }

  /** Sum of price times quantity over all entries. */
  ghost function CostSum(m: map<string, int>): int
  {
    SumBy(m, Cost)
  }

  /** Any entry can be taken out of the sum first. */
  lemma {:induction false} SumByRemove(m: map<string, int>, k: string, f: (string, int) -> int)
    requires k in m
    ensures SumBy(m, f) == f(k, m[k]) + SumBy(m - {k}, f)
    decreases |m|
  {
    var j :| j in m && SumBy(m, f) == f(j, m[j]) + SumBy(m - {j}, f);
    if j != k {
      assert (m - {j}).Keys == m.Keys - {j};
      SumByRemove(m - {j}, k, f);
      assert (m - {j}) - {k} == (m - {k}) - {j};
      assert (m - {k}).Keys == m.Keys - {k};
      SumByRemove(m - {k}, j, f);
    }
  }

  /** An entry's contribution is the part of the sum it accounts for; an absent id contributes 0. */
  lemma SumBySplit(m: map<string, int>, k: string, f: (string, int) -> int)
    ensures SumBy(m, f) == (if k in m then f(k, m[k]) else 0) + SumBy(m - {k}, f)
  {
    if k in m {
      SumByRemove(m, k, f);
    } else {
      assert m - {k} == m;
    }
  }

  /** In a cart whose quantities are all at least 1, the item count is at least the number of entries. */
  lemma {:induction false} QtySumAtLeastSize(m: map<string, int>)
    ensures AllPositive(m) ==> QtySum(m) >= |m|
    ensures m == map[] ==> QtySum(m) == 0
    decreases |m|
  {
    if m != map[] && AllPositive(m) {
      var k :| k in m;
      SumByRemove(m, k, Qty);
      assert (m - {k}).Keys == m.Keys - {k};
      QtySumAtLeastSize(m - {k});
    }
  }

  /** In a cart whose quantities are all at least 1, the cost is never negative. */
  lemma {:induction false} CostSumNonNegative(m: map<string, int>)
    ensures AllPositive(m) ==> CostSum(m) >= 0
    decreases |m|
  {
    if m != map[] && AllPositive(m) {
      var k :| k in m;
      SumByRemove(m, k, Cost);
      assert (m - {k}).Keys == m.Keys - {k};
      CostSumNonNegative(m - {k});
      ProductNonNegative(PriceOf(k), m[k]);
    }
  }

  lemma ProductNonNegative(a: int, b: int)
    requires a >= 0 && b >= 0
    ensures a * b >= 0
  {
  }

  /** `keys` lists every id of `items` exactly once. */
  predicate Enumerates(keys: seq<string>, items: map<string, int>)
  {
    && (forall i | 0 <= i < |keys| :: keys[i] in items)
    && (forall id | id in items :: id in keys)
    && (forall i, j | 0 <= i < j < |keys| :: keys[i] != keys[j])
  }

  /** `reduce` from 0, left to right over `keys`, adding `f(id, qty)` for each listed entry. */
  function Fold(items: map<string, int>, keys: seq<string>, f: (string, int) -> int): int
    requires forall i | 0 <= i < |keys| :: keys[i] in items
  {
    if keys == [] then 0
    else
      var n := |keys| - 1;
      Fold(items, keys[..n], f) + f(keys[n], items[keys[n]])
  }

  /** The entries of `items` whose ids appear in `keys`. */
  ghost function Listed(items: map<string, int>, keys: seq<string>): map<string, int>
  {
    map id | id in items && id in keys :: items[id]
  }

  /** Folding over a duplicate-free listing sums exactly the listed entries. */
  lemma {:induction false} FoldIsSum(items: map<string, int>, keys: seq<string>, f: (string, int) -> int)
    requires forall i | 0 <= i < |keys| :: keys[i] in items
    requires forall i, j | 0 <= i < j < |keys| :: keys[i] != keys[j]
    ensures Fold(items, keys, f) == SumBy(Listed(items, keys), f)
  {
    if keys == [] {
      assert Listed(items, keys) == map[];
    } else {
      var n := |keys| - 1;
      var x := keys[n];
      FoldIsSum(items, keys[..n], f);
      assert keys == keys[..n] + [x];
      assert x !in keys[..n];
      assert Listed(items, keys) - {x} == Listed(items, keys[..n]);
      SumByRemove(Listed(items, keys), x, f);
    }
  }

  /** A full listing of the keys lists the whole cart. */
  lemma ListedAll(items: map<string, int>, keys: seq<string>)
    requires Enumerates(keys, items)
    ensures Listed(items, keys) == items
  {
  }

  /**
   `selectTotalCount`: the sum of all quantities, whatever the enumeration
   order. On a cart satisfying the store invariant it is at least the number of
   entries, so it is 0 exactly when the cart is empty.
   */
  function TotalCount(items: map<string, int>, keys: seq<string>): (r: int)
    requires Enumerates(keys, items)
    ensures r == QtySum(items)
    ensures AllPositive(items) ==> r >= |items|
    ensures AllPositive(items) ==> (r == 0 <==> items == map[])
  {
    FoldIsSum(items, keys, Qty);
    ListedAll(items, keys);
    QtySumAtLeastSize(items);
    Fold(items, keys, Qty)
  }

  /**
   `selectTotalCost`: the sum of price times quantity over the cart, with ids
   missing from the catalogue contributing 0, whatever the enumeration order.
   */
  function TotalCost(items: map<string, int>, keys: seq<string>): (r: int)
    requires Enumerates(keys, items)
    ensures r == CostSum(items)
    ensures AllPositive(items) ==> r >= 0
  {
    FoldIsSum(items, keys, Cost);
    ListedAll(items, keys);
    CostSumNonNegative(items);
    Fold(items, keys, Cost)
  }

  /** Overwriting one entry changes the sum by the difference of that entry's terms. */
  lemma SumByUpdate(m: map<string, int>, k: string, v: int, f: (string, int) -> int)
    ensures SumBy(m[k := v], f) == SumBy(m, f) - (if k in m then f(k, m[k]) else 0) + f(k, v)
  {
    SumBySplit(m, k, f);
    SumBySplit(m[k := v], k, f);
    assert m[k := v] - {k} == m - {k};
  }

  /** One more unit of an id costs one more unit price. */
  lemma CostStep(id: string, q: int)
    ensures Cost(id, q + 1) == Cost(id, q) + PriceOf(id)
    ensures Cost(id, 0) == 0
  {
    var p := PriceOf(id);
    assert p * (q + 1) == p * q + p;
  }

  /** `addItem`/`increase` add exactly 1 to the count and the id's price to the cost. */
  lemma AddedTotals(items: map<string, int>, id: string)
    ensures QtySum(Added(items, id)) == QtySum(items) + 1
    ensures CostSum(Added(items, id)) == CostSum(items) + PriceOf(id)
  {
    var before := if id in items then items[id] else 0;
    assert Added(items, id) == items[id := before + 1];
    SumByUpdate(items, id, before + 1, Qty);
    SumByUpdate(items, id, before + 1, Cost);
    CostStep(id, before);
  }

  /** On a cart keeping the invariant, `decrease` takes 1 (and one unit price) off for a present id, nothing otherwise. */
  lemma DecreasedTotals(items: map<string, int>, id: string)
    requires AllPositive(items)
    ensures QtySum(Decreased(items, id)) == QtySum(items) - (if id in items then 1 else 0)
    ensures CostSum(Decreased(items, id)) == CostSum(items) - (if id in items then PriceOf(id) else 0)
  {
    if id in items {
      var q := items[id];
      CostStep(id, q - 1);
      if q > 1 {
        assert Decreased(items, id) == items[id := q - 1];
        SumByUpdate(items, id, q - 1, Qty);
        SumByUpdate(items, id, q - 1, Cost);
      } else {
        assert Decreased(items, id) == items - {id};
        SumBySplit(items, id, Qty);
        SumBySplit(items, id, Cost);
      }
    }
  }

  /** `remove` takes the id's whole quantity, and its cost, off the totals. */
  lemma RemovedTotals(items: map<string, int>, id: string)
    ensures QtySum(Removed(items, id)) == QtySum(items) - (if id in items then items[id] else 0)
    ensures CostSum(Removed(items, id)) == CostSum(items) - (if id in items then PriceOf(id) * items[id] else 0)
  {
    SumBySplit(items, id, Qty);
    SumBySplit(items, id, Cost);
  }

  lemma KnownPrices()
    ensures PriceOf("aloe") == 499 && PriceOf("snake") == 899
  {
    assert Products()[0].id == "aloe" && Products()[1].id == "snake";
  }

  /** A fold over a two-id listing adds the two entries' terms. */
  lemma FoldOfTwo(m: map<string, int>, a: string, b: string, f: (string, int) -> int)
    requires a in m && b in m
    ensures Fold(m, [a, b], f) == f(a, m[a]) + f(b, m[b])
  {
    assert [a, b][..1] == [a];
    assert [a][..0] == [];
    assert Fold(m, [a], f) == Fold(m, [], f) + f(a, m[a]) == f(a, m[a]);
    assert Fold(m, [a, b], f) == Fold(m, [a], f) + f(b, m[b]);
  }

  /** `{aloe: 2, snake: 1}` counts 3 items. */
  lemma ExampleCount()
    ensures TotalCount(map["aloe" := 2, "snake" := 1], ["aloe", "snake"]) == 3
  {
    var m := map["aloe" := 2, "snake" := 1];
    assert Enumerates(["aloe", "snake"], m);
    FoldOfTwo(m, "aloe", "snake", Qty);
  }

  /** `{aloe: 2, snake: 1}` costs 2 * 499 + 899, in either enumeration order. */
  lemma ExampleCost()
    ensures TotalCost(map["aloe" := 2, "snake" := 1], ["aloe", "snake"]) == 1897
    ensures TotalCost(map["aloe" := 2, "snake" := 1], ["snake", "aloe"]) == 1897
  {
    var m := map["aloe" := 2, "snake" := 1];
    assert Enumerates(["aloe", "snake"], m) && Enumerates(["snake", "aloe"], m);
    KnownPrices();
    assert Cost("aloe", 2) == 998 && Cost("snake", 1) == 899;
    FoldOfTwo(m, "aloe", "snake", Cost);
    FoldOfTwo(m, "snake", "aloe", Cost);
  }
}
