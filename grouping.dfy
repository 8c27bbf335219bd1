/**
 The product listing's grouping of the catalogue by category: a `reduce`
 that, for each product in catalogue order, finds the group named by its
 category (creating an empty one at the end when there is none yet) and
 appends the product to it.
 */
module Grouping {
  import opened Catalog

  datatype Group = Group(category: string, products: seq<Product>)

  /** Index of the group named `c` in `gs`, or `|gs|` when there is none. */
  function GroupIndex(gs: seq<Group>, c: string): (i: nat)
    ensures i <= |gs|
    ensures i < |gs| ==> gs[i].category == c
    ensures forall j | 0 <= j < i :: gs[j].category != c
  {
    if gs == [] then 0
    else if gs[0].category == c then 0
    else 1 + GroupIndex(gs[1..], c)
  }

  /** One step of the fold: `acc[p.category] = acc[p.category] || []; acc[p.category].push(p)`. */
  function Place(gs: seq<Group>, p: Product): seq<Group>
  {
    var i := GroupIndex(gs, p.category);
    if i < |gs| then gs[i := Group(p.category, gs[i].products + [p])]
    else gs + [Group(p.category, [p])]
  }

  /** The whole fold, left to right over `ps`, starting from no groups. */
  function GroupByCategory(ps: seq<Product>): seq<Group>
  {
    if ps == [] then []
    else Place(GroupByCategory(ps[..|ps| - 1]), ps[|ps| - 1])
  }

  /** The categories of `ps`, each once, in the order they are first seen. */
  function Categories(ps: seq<Product>): (cs: seq<string>)
    ensures forall i, j | 0 <= i < j < |cs| :: cs[i] != cs[j]
    ensures forall c :: c in cs <==> exists p :: p in ps && p.category == c
  {
    if ps == [] then []
    else
      var n := |ps| - 1;
      var cs := Categories(ps[..n]);
      assert ps == ps[..n] + [ps[n]];
      if ps[n].category in cs then cs else cs + [ps[n].category]
  }

  /** The products of `ps` in category `c`, in their order in `ps`. */
  function InCategory(ps: seq<Product>, c: string): (r: seq<Product>)
    ensures forall p :: p in r <==> p in ps && p.category == c
  {
    if ps == [] then []
    else
      var n := |ps| - 1;
      assert ps == ps[..n] + [ps[n]];
      InCategory(ps[..n], c) + (if ps[n].category == c then [ps[n]] else [])
  }

  /** `gs` lists, for each category of `cs` in order, that category's products of `ps`. */
  predicate GroupsOf(gs: seq<Group>, cs: seq<string>, ps: seq<Product>)
  {
    && |gs| == |cs|
    && forall i | 0 <= i < |gs| :: gs[i] == Group(cs[i], InCategory(ps, cs[i]))
  }

  lemma InCategorySnoc(prefix: seq<Product>, p: Product, c: string)
    ensures InCategory(prefix + [p], c) == InCategory(prefix, c) + (if p.category == c then [p] else [])
  {
    assert (prefix + [p])[..|prefix|] == prefix;
  }

  lemma CategoriesSnoc(prefix: seq<Product>, p: Product)
    ensures Categories(prefix + [p]) ==
            if p.category in Categories(prefix) then Categories(prefix) else Categories(prefix) + [p.category]
  {
    assert (prefix + [p])[..|prefix|] == prefix;
  }

  /** A category not among those seen so far has no products yet. */
  lemma UnseenCategoryEmpty(ps: seq<Product>, c: string)
    requires c !in Categories(ps)
    ensures InCategory(ps, c) == []
  {
  }

  /** One step of the fold keeps the groups in step with the categories seen so far. */
  lemma PlaceKeepsGroups(prefix: seq<Product>, p: Product)
    requires GroupsOf(GroupByCategory(prefix), Categories(prefix), prefix)
    ensures GroupsOf(Place(GroupByCategory(prefix), p), Categories(prefix + [p]), prefix + [p])
  {
    var ps := prefix + [p];
    var gs, cs := GroupByCategory(prefix), Categories(prefix);
    var i := GroupIndex(gs, p.category);
    var r := Place(gs, p);
    CategoriesSnoc(prefix, p);
    if i < |gs| {
      assert cs[i] == p.category;
      assert Categories(ps) == cs;
      forall j | 0 <= j < |r| ensures r[j] == Group(cs[j], InCategory(ps, cs[j])) {
        InCategorySnoc(prefix, p, cs[j]);
        if j != i {
          assert cs[j] != cs[i];
        }
      }
    } else {
      assert p.category !in cs by {
        forall j | 0 <= j < |cs| ensures cs[j] != p.category {
          assert gs[j].category == cs[j];
        }
      }
      UnseenCategoryEmpty(prefix, p.category);
      var cs' := cs + [p.category];
      assert Categories(ps) == cs';
      forall j | 0 <= j < |r| ensures r[j] == Group(cs'[j], InCategory(ps, cs'[j])) {
        InCategorySnoc(prefix, p, cs'[j]);
        if j < |cs| {
          assert cs'[j] == cs[j] != p.category;
        }
      }
    }
  }

  /**
   The grouping has one group per category, in first-seen order, and the
   group for category `c` holds exactly the products of category `c`, in
   catalogue order.
   */
  lemma {:induction false} GroupByCategoryIsPartition(ps: seq<Product>)
    ensures |GroupByCategory(ps)| == |Categories(ps)|
    ensures forall i | 0 <= i < |GroupByCategory(ps)| ::
              GroupByCategory(ps)[i] == Group(Categories(ps)[i], InCategory(ps, Categories(ps)[i]))
  {
    if ps != [] {
      var n := |ps| - 1;
      GroupByCategoryIsPartition(ps[..n]);
      PlaceKeepsGroups(ps[..n], ps[n]);
      assert ps[..n] + [ps[n]] == ps;
    }
  }

  /**
   Every product lands in exactly one group: the one keyed by its own
   category, and no group is keyed twice.
   */
  lemma EachProductInOneGroup(ps: seq<Product>, p: Product)
    requires p in ps
    ensures exists i :: 0 <= i < |GroupByCategory(ps)| && GroupByCategory(ps)[i].category == p.category
    ensures forall i | 0 <= i < |GroupByCategory(ps)| ::
              p in GroupByCategory(ps)[i].products <==> GroupByCategory(ps)[i].category == p.category
    ensures forall i, j | 0 <= i < j < |GroupByCategory(ps)| ::
              GroupByCategory(ps)[i].category != GroupByCategory(ps)[j].category
  {
    GroupByCategoryIsPartition(ps);
    var cs := Categories(ps);
    assert p.category in cs;
    var i :| 0 <= i < |cs| && cs[i] == p.category;
    assert GroupByCategory(ps)[i].category == p.category;
  }

  /** The first four plants fill three groups; the fourth joins the second group. */
  lemma CatalogGroupsOfFirstFour()
    ensures GroupByCategory(Products()[..4]) ==
      [ Group("Succulents", [Products()[0]]),
        Group("Low Light", [Products()[1], Products()[3]]),
        Group("Tropical", [Products()[2]]) ]
  {
    var ps := Products();
    assert ps[..1] == [ps[0]];
    var g1 := [Group("Succulents", [ps[0]])];
    assert GroupByCategory(ps[..1]) == g1;
    assert ps[..2][..1] == ps[..1];
    var g2 := g1 + [Group("Low Light", [ps[1]])];
    assert GroupByCategory(ps[..2]) == g2;
    assert ps[..3][..2] == ps[..2];
    var g3 := g2 + [Group("Tropical", [ps[2]])];
    assert GroupByCategory(ps[..3]) == g3;
    assert ps[..4][..3] == ps[..3] && ps[..4][3] == ps[3];
    assert g3[0].category != "Low Light" && g3[1].category == "Low Light";
    assert GroupIndex(g3, "Low Light") == 1;
    assert [ps[1]] + [ps[3]] == [ps[1], ps[3]];
    assert GroupByCategory(ps[..4]) == Place(g3, ps[3]);
  }

  /** The storefront's six plants fall into four groups, in this order. */
  lemma CatalogGroups()
    ensures GroupByCategory(Products()) ==
      [ Group("Succulents", [Products()[0]]),
        Group("Low Light", [Products()[1], Products()[3]]),
        Group("Tropical", [Products()[2], Products()[5]]),
        Group("Flowering", [Products()[4]]) ]
  {
    var ps := Products();
    CatalogGroupsOfFirstFour();
    var g4 := GroupByCategory(ps[..4]);
    assert ps[..5][..4] == ps[..4] && ps[..5][4] == ps[4];
    var g5 := g4 + [Group("Flowering", [ps[4]])];
    assert GroupByCategory(ps[..5]) == g5;
    assert ps[..5] == ps[..|ps| - 1];
    assert g5[0].category != "Tropical" && g5[1].category != "Tropical" && g5[2].category == "Tropical";
    assert GroupIndex(g5, "Tropical") == 2;
    assert [ps[2]] + [ps[5]] == [ps[2], ps[5]];
    assert GroupByCategory(ps) == Place(g5, ps[5]);
  }
}
