/**
 The static product catalogue of the storefront: six houseplants, each with a
 unique id, a display name, a unit price in paise and a category label.
 */
module Catalog {

  datatype Option<T> = None | Some(value: T)

  /** One catalogue entry; `price` is in minor currency units (paise). */
  datatype Product = Product(id: string, name: string, price: int, category: string)

  /** The catalogue, in its fixed order. */
  function Products(): seq<Product>
  {
    [ Product("aloe", "Aloe Vera", 499, "Succulents"),
      Product("snake", "Snake Plant", 899, "Low Light"),
      Product("monstera", "Monstera Deliciosa", 1499, "Tropical"),
      Product("pothos", "Golden Pothos", 699, "Low Light"),
      Product("peace-lily", "Peace Lily", 1099, "Flowering"),
      Product("fern", "Boston Fern", 799, "Tropical") ]
  }

  /** No two entries of `ps` share an id. */
  predicate UniqueIds(ps: seq<Product>)
  {
    forall i, j | 0 <= i < j < |ps| :: ps[i].id != ps[j].id
  }

  /** The catalogue's ids are unique and every price is positive. */
  lemma CatalogWellFormed()
    ensures UniqueIds(Products())
    ensures forall p | p in Products() :: p.price > 0
  {
  }

  /** Position of the first entry of `ps` whose id is `id`, or `|ps|` when there is none. */
  function IndexOf(ps: seq<Product>, id: string): (k: nat)
    ensures k <= |ps|
    ensures k < |ps| ==> ps[k].id == id
    ensures forall j | 0 <= j < k :: ps[j].id != id
  {
    if ps == [] then 0
    else if ps[0].id == id then 0
    else 1 + IndexOf(ps[1..], id)
  }

  /**
   Array `find` by id: the FIRST entry of `ps` whose id is `id`, or None when
   no entry has that id.
   */
  function Find(ps: seq<Product>, id: string): (r: Option<Product>)
    ensures r.None? <==> forall p | p in ps :: p.id != id
    ensures r.Some? ==> r.value in ps && r.value.id == id
    ensures forall j | 0 <= j < |ps| && ps[j].id == id && (forall i | 0 <= i < j :: ps[i].id != id) ::
              r == Some(ps[j])
  {
    var k := IndexOf(ps, id);
    if k < |ps| then Some(ps[k]) else None
  }

  /** In a catalogue with unique ids, `Find` returns the one entry with that id. */
  lemma FindUnique(ps: seq<Product>, k: nat)
    requires UniqueIds(ps) && k < |ps|
    ensures Find(ps, ps[k].id) == Some(ps[k])
  {
    var k' := IndexOf(ps, ps[k].id);
    assert !(k < k');
    assert !(k' < k);
  }

  /**
   The unit price the cart totals use for `id`: the catalogue price when the
   catalogue has that id, and 0 for an unknown id.
   */
  function PriceOf(id: string): (r: int)
    ensures r >= 0
    ensures r == 0 <==> forall p | p in Products() :: p.id != id
    ensures forall p | p in Products() && p.id == id :: r == p.price
  {
    CatalogWellFormed();
    forall p | p in Products() && p.id == id ensures Find(Products(), id) == Some(p) {
      var k :| 0 <= k < |Products()| && Products()[k] == p;
      FindUnique(Products(), k);
    }
    match Find(Products(), id)
    case Some(p) => p.price
    case None => 0
  }
}
