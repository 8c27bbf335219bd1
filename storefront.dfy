/**
 A client of the cart store: the cart page's journey from an empty cart,
 checked against the store's transitions and the selectors.
 */
module Storefront {
  import opened CartStore
  import opened Totals

  /** The states the journey passes through. */
  lemma JourneyStates()
    ensures Added(map[], "aloe") == map["aloe" := 1]
    ensures Added(map["aloe" := 1], "aloe") == map["aloe" := 2]
    ensures Decreased(map["aloe" := 2], "aloe") == map["aloe" := 1]
    ensures Decreased(map["aloe" := 1], "aloe") == map[]
  {
  }

  /** A cart holding only aloe, `q` of them, shows `q` items costing `499 * q`. */
  lemma AloeOnlyTotals(q: int)
    ensures TotalCount(map["aloe" := q], ["aloe"]) == q
    ensures TotalCost(map["aloe" := q], ["aloe"]) == 499 * q
  {
    var m := map["aloe" := q];
    assert ["aloe"][..0] == [];
    assert Enumerates(["aloe"], m);
    assert Fold(m, ["aloe"], Qty) == q;
    KnownPrices();
    assert Cost("aloe", q) == 499 * q;
    assert Fold(m, ["aloe"], Cost) == 499 * q;
  }

  /**
   Starting empty: adding aloe shows 1 item costing 499, increasing it shows
   2 items costing 998, one decrease shows 1 item costing 499 again, and a
   second decrease empties the cart (0 items, cost 0), which is when the cart
   page shows its empty state.
   */
  method AloeJourney() returns (counts: seq<int>, costs: seq<int>, emptyAtEnd: bool)
    ensures counts == [1, 2, 1, 0] && costs == [499, 998, 499, 0] && emptyAtEnd
  {
    JourneyStates();
    AloeOnlyTotals(1);
    AloeOnlyTotals(2);
    var cart := new Cart();
    cart.AddItem("aloe");
    var c1, t1 := TotalCount(cart.items, ["aloe"]), TotalCost(cart.items, ["aloe"]);
    cart.Increase("aloe");
    var c2, t2 := TotalCount(cart.items, ["aloe"]), TotalCost(cart.items, ["aloe"]);
    cart.Decrease("aloe");
    var c3, t3 := TotalCount(cart.items, ["aloe"]), TotalCost(cart.items, ["aloe"]);
    cart.Decrease("aloe");
    var c4, t4 := TotalCount(cart.items, []), TotalCost(cart.items, []);
    counts, costs, emptyAtEnd := [c1, c2, c3, c4], [t1, t2, t3, t4], cart.items == map[];
  }
}
