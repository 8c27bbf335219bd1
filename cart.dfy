/**
 The cart store: a map from product id to quantity and the five transitions
 that change it (addItem, increase, decrease, remove, clear).

 The reducers test `!state.items[id]`, which is true when the id is absent and
 also when its stored quantity is 0. `Held` is that test negated, so the model
 takes the same branches as the code even on states the transitions never
 reach (quantity 0 or below).
 */
module CartStore {

  /** The cart holds `id` in the reducers' sense: present with a non-zero quantity. */
  predicate Held(items: map<string, int>, id: string): (b: bool)
    ensures b ==> id in items
    ensures AllPositive(items) ==> (b <==> id in items)
  {
    id in items && items[id] != 0
  }

  /** The store's invariant: every stored quantity is at least 1. */
  predicate AllPositive(items: map<string, int>)
  {
    forall id | id in items :: items[id] >= 1
  }

  /**
   The state after `addItem(id)` (and `increase(id)`): an absent id enters with
   quantity 1, a held id gains exactly 1, and no other key changes.
   */
  function Added(items: map<string, int>, id: string): (r: map<string, int>)
    ensures r.Keys == items.Keys + {id}
    ensures id !in items ==> r[id] == 1
    ensures id in items && items[id] != 0 ==> r[id] == items[id] + 1
    ensures id in items && items[id] == 0 ==> r[id] == 1
    ensures forall k | k in items && k != id :: r[k] == items[k]
    ensures AllPositive(items) ==> AllPositive(r)
  {
    var base := if Held(items, id) then items[id] else 0;
    items[id := base + 1]
  }

  /**
   The state after `decrease(id)`: unchanged when the id is not held; otherwise
   the quantity drops by 1 and the key is deleted once it reaches 0 or below.
   */
  function Decreased(items: map<string, int>, id: string): (r: map<string, int>)
    ensures !Held(items, id) ==> r == items
    ensures Held(items, id) && items[id] > 1 ==> r.Keys == items.Keys && r[id] == items[id] - 1
    ensures Held(items, id) && items[id] <= 1 ==> r.Keys == items.Keys - {id}
    ensures forall k | k in r && k != id :: k in items && r[k] == items[k]
    ensures forall k | k in items && k != id :: k in r
    ensures AllPositive(items) ==> AllPositive(r)
  {
    if !Held(items, id) then items
    else
      var q := items[id] - 1;
      if q <= 0 then items - {id} else items[id := q]
  }

  /** The state after `remove(id)`: `id` is absent and every other entry is kept as it was. */
  function Removed(items: map<string, int>, id: string): (r: map<string, int>)
    ensures r.Keys == items.Keys - {id}
    ensures forall k | k in r :: r[k] == items[k]
    ensures AllPositive(items) ==> AllPositive(r)
  {
    items - {id}
  }

  /** Removing twice leaves the same state as removing once. */
  lemma RemoveIdempotent(items: map<string, int>, id: string)
    ensures Removed(Removed(items, id), id) == Removed(items, id)
  {
  }

  /** Decreasing an id the cart does not hold is a no-op. */
  lemma DecreaseAbsentIsNoop(items: map<string, int>, id: string)
    requires id !in items
    ensures Decreased(items, id) == items
  {
  }

  /** `n` successive `addItem(id)` calls. */
  function AddTimes(items: map<string, int>, id: string, n: nat): map<string, int>
  {
    if n == 0 then items else Added(AddTimes(items, id, n - 1), id)
  }

  /** `n` successive `decrease(id)` calls. */
  function DecreaseTimes(items: map<string, int>, id: string, n: nat): map<string, int>
  {
    if n == 0 then items else Decreased(DecreaseTimes(items, id, n - 1), id)
  }

  /** `n` additions of an absent id leave it with quantity exactly `n`, other keys untouched. */
  lemma {:induction false} AddTimesFromAbsent(items: map<string, int>, id: string, n: nat)
    requires id !in items && n >= 1
    ensures AddTimes(items, id, n) == items[id := n]
  {
    if n > 1 {
      AddTimesFromAbsent(items, id, n - 1);
    }
  }

  /**
   `k` decreases of a held quantity `q >= 1` leave `q - k` while `k < q` and
   delete the key once `k >= q`: the quantity is never observed as 0.
   */
  lemma {:induction false} DecreaseTimesFromHeld(items: map<string, int>, id: string, k: nat)
    requires id in items && items[id] >= 1
    ensures k < items[id] ==> DecreaseTimes(items, id, k) == items[id := items[id] - k]
    ensures k >= items[id] ==> DecreaseTimes(items, id, k) == items - {id}
  {
    if k > 0 {
      DecreaseTimesFromHeld(items, id, k - 1);
      if k - 1 >= items[id] {
        assert DecreaseTimes(items, id, k - 1) == items - {id};
      }
    }
  }

  /** Adding an absent id `n` times and then decreasing it `n` times restores the original state. */
  lemma AddThenDecreaseRestores(items: map<string, int>, id: string, n: nat)
    requires id !in items
    ensures DecreaseTimes(AddTimes(items, id, n), id, n) == items
  {
    if n > 0 {
      AddTimesFromAbsent(items, id, n);
      var full := items[id := n];
      DecreaseTimesFromHeld(full, id, n);
      assert full - {id} == items;
    }
  }

  /**
   The Redux cart slice. The reducers mutate `items` in place through the
   Immer draft; each method here is one reducer.
   */
  class Cart {
    var items: map<string, int>

    ghost predicate Valid()
      reads this
    {
      AllPositive(items)
    }

    /** The slice's initial state: an empty cart. */
    constructor ()
      ensures items == map[] && Valid()
    {
      items := map[];
    }

    method AddItem(id: string)
      modifies this
      ensures items == Added(old(items), id)
      ensures old(Valid()) ==> Valid()
    {
      if !Held(items, id) {
        items := items[id := 0];
      }
      items := items[id := items[id] + 1];
    }

    /** The same code as `AddItem`, hence the same new state for every state and id. */
    method Increase(id: string)
      modifies this
      ensures items == Added(old(items), id)
      ensures old(Valid()) ==> Valid()
    {
      if !Held(items, id) {
        items := items[id := 0];
      }
      items := items[id := items[id] + 1];
    }

    method Decrease(id: string)
      modifies this
      ensures items == Decreased(old(items), id)
      ensures old(Valid()) ==> Valid()
    {
      if !Held(items, id) {
        return;
      }
      items := items[id := items[id] - 1];
      if items[id] <= 0 {
        items := items - {id};
      }
    }

    method Remove(id: string)
      modifies this
      ensures items == Removed(old(items), id)
      ensures old(Valid()) ==> Valid()
    {
      items := items - {id};
    }

    method Clear()
      modifies this
      ensures items == map[] && Valid()
    {
      items := map[];
    }
  }
}
