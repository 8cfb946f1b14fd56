/** The combo list page: combos grouped under the product of their first
    item, rows that expand and collapse, and the search over the groups. */
module ComboProducts {
  import opened Lists
  import opened Text
  import opened Grouping
  import Catalog

  /** A product with its combos and its number of variants. */
  datatype ComboGroup = ComboGroup(product: Catalog.Product, combos: seq<Catalog.Combo>, variantCount: nat)

  // ---------------------------------------------------------------- grouping

  /** `JSON.parse(product.variants).length` when the text is present and
      parses, else 0. */
  function VariantCount(v: Catalog.Variants): (n: nat)
    ensures v.Parsed? ==> n == |v.list|
    ensures !v.Parsed? ==> n == 0
  {
    if v.Parsed? then |v.list| else 0
  }

  /** The product id of a combo's first item (0 when it has none). */
  function KeyOf(c: Catalog.Combo): int {
    if c.items.Items? && c.items.list != [] then c.items.list[0].productId else 0
  }

  /** A combo is listed when it has items and its first item's product is
      known. */
  predicate Listed(products: seq<Catalog.Product>, c: Catalog.Combo) {
    c.items.Items? && c.items.list != [] && Catalog.ProductIndexById(products, KeyOf(c)) >= 0
  }

  /** The combos the `forEach` does not skip, in order. */
  function ListedCombos(products: seq<Catalog.Product>, combos: seq<Catalog.Combo>): seq<Catalog.Combo> {
    Filter(combos, (c: Catalog.Combo) => Listed(products, c))
  }

  /** Some combo's item text does not parse; `JSON.parse` then throws out of
      the grouping. */
  predicate AnyCorrupt(combos: seq<Catalog.Combo>) {
    exists k :: 0 <= k < |combos| && combos[k].items.CorruptItems?
  }

  /** `products.find(p => p.id === id)`; the grouping only asks for ids it
      has found, and a blank product with that id stands in otherwise. */
  function ProductOf(products: seq<Catalog.Product>, id: int): (p: Catalog.Product)
    ensures p.id == id
  {
    var pi := Catalog.ProductIndexById(products, id);
    if pi >= 0 then products[pi] else Catalog.Product(id, "", "", "", 0, 0, 0, Catalog.NoVariants)
  }

  /** The map's values: each key's product, combos and variant count. */
  function Shape(products: seq<Catalog.Product>, gs: seq<Group<int, Catalog.Combo>>): (r: seq<ComboGroup>)
    ensures |r| == |gs|
  {
    seq(|gs|, j requires 0 <= j < |gs| =>
      var p := ProductOf(products, gs[j].key);
      ComboGroup(p, gs[j].rows, VariantCount(p.variants)))
  }

  /** `groupCombos()`, or None when it throws. */
  function GroupsOf(products: seq<Catalog.Product>, combos: seq<Catalog.Combo>): (r: Option<seq<ComboGroup>>)
    ensures r.None? <==> AnyCorrupt(combos)
  {
    if AnyCorrupt(combos) then None
    else Some(Shape(products, GroupBy(ListedCombos(products, combos), KeyOf)))
  }

  /** The product ids of the groups, in order. */
  function ProductIds(gs: seq<ComboGroup>): (r: seq<int>)
    ensures |r| == |gs| && forall j :: 0 <= j < |gs| ==> r[j] == gs[j].product.id
  {
    seq(|gs|, j requires 0 <= j < |gs| => gs[j].product.id)
  }

  /** The groups are keyed by the first item's product id, one per id, in
      order of first occurrence. */
  lemma GroupOrder(products: seq<Catalog.Product>, combos: seq<Catalog.Combo>)
    requires !AnyCorrupt(combos)
    ensures ProductIds(GroupsOf(products, combos).value) == Distinct(RowKeys(ListedCombos(products, combos), KeyOf))
  {
    var listed := ListedCombos(products, combos);
    var gs := GroupsOf(products, combos).value;
    GroupKeysAreDistinctKeys(listed, KeyOf);
    assert ProductIds(gs) == Keys(GroupBy(listed, KeyOf));
  }

  /** Group j holds the first product with its id and that product's variant
      count, and exactly the listed combos with that key, in input order. */
  lemma GroupContents(products: seq<Catalog.Product>, combos: seq<Catalog.Combo>, j: int)
    requires !AnyCorrupt(combos)
    requires 0 <= j < |GroupsOf(products, combos).value|
    ensures var listed := ListedCombos(products, combos);
      var g := GroupsOf(products, combos).value[j];
      var pi := Catalog.ProductIndexById(products, g.product.id);
      g.combos == RowsWithKey(listed, KeyOf, g.product.id) &&
      pi >= 0 && g.product == products[pi] &&
      g.variantCount == VariantCount(g.product.variants)
  {
    var listed := ListedCombos(products, combos);
    var raw := GroupBy(listed, KeyOf);
    GroupKeysAreDistinctKeys(listed, KeyOf);
    GroupRowsAreRowsWithKey(listed, KeyOf);
    var key := raw[j].key;
    assert Keys(raw)[j] == key;
    assert key in RowKeys(listed, KeyOf);
    var k :| 0 <= k < |listed| && RowKeys(listed, KeyOf)[k] == key;
    assert listed[k] in listed;
    assert Listed(products, listed[k]);
  }

  /** A combo appears in some group exactly when it is one of the combos, it
      has items, and its first item's product is known. */
  lemma GroupedIffListed(products: seq<Catalog.Product>, combos: seq<Catalog.Combo>, c: Catalog.Combo)
    requires !AnyCorrupt(combos)
    ensures var gs := GroupsOf(products, combos).value;
      (exists j :: 0 <= j < |gs| && c in gs[j].combos) <==> c in combos && Listed(products, c)
  {
    var listed := ListedCombos(products, combos);
    var gs := GroupsOf(products, combos).value;
    var raw := GroupBy(listed, KeyOf);
    GroupRowsAreRowsWithKey(listed, KeyOf);
    GroupKeysAreDistinctKeys(listed, KeyOf);
    if c in listed {
      assert KeyOf(c) in RowKeys(listed, KeyOf);
      var j :| 0 <= j < |raw| && Keys(raw)[j] == KeyOf(c);
      RowsWithKeyIff(listed, KeyOf, KeyOf(c), c);
      assert c in gs[j].combos;
    }
    if exists j :: 0 <= j < |gs| && c in gs[j].combos {
      var j :| 0 <= j < |gs| && c in gs[j].combos;
      RowsWithKeyIff(listed, KeyOf, raw[j].key, c);
    }
  }

  /** The `forEach` filling the map: a combo without items or with an
      unknown first product is skipped, and one whose item text does not
      parse ends the grouping. */
  method GroupCombos(products: seq<Catalog.Product>, combos: seq<Catalog.Combo>) returns (r: Option<seq<ComboGroup>>)
    ensures r == GroupsOf(products, combos)
  {
    var grouped: seq<Group<int, Catalog.Combo>> := [];
    var i := 0;
    while i < |combos|
      invariant 0 <= i <= |combos|
      invariant forall k :: 0 <= k < i ==> !combos[k].items.CorruptItems?
      invariant grouped == GroupBy(ListedCombos(products, combos[..i]), KeyOf)
    {
      var c := combos[i];
      if c.items.CorruptItems? {
        return None;
      }
      assert combos[..i + 1][..i] == combos[..i];
      if Listed(products, c) {
        assert ListedCombos(products, combos[..i + 1]) == ListedCombos(products, combos[..i]) + [c];
        grouped := AddRow(grouped, KeyOf(c), c);
      } else {
        assert ListedCombos(products, combos[..i + 1]) == ListedCombos(products, combos[..i]);
      }
      i := i + 1;
    }
    assert combos[..i] == combos;
    r := Some(Shape(products, grouped));
  }

  // ---------------------------------------------------------------- rows

  /** The expanded rows after a click on a product's row. */
  function Toggle(expanded: set<int>, productId: int): (r: set<int>)
    ensures productId in r <==> productId !in expanded
    ensures forall id :: id != productId ==> (id in r <==> id in expanded)
  {
    if productId in expanded then expanded - {productId} else expanded + {productId}
  }

  /** Clicking the same row twice restores the expanded rows. */
  lemma ToggleTwice(expanded: set<int>, productId: int)
    ensures Toggle(Toggle(expanded, productId), productId) == expanded
  {
    var once := Toggle(expanded, productId);
    var twice := Toggle(once, productId);
    assert forall id :: id in twice <==> id in expanded;
  }

  // ---------------------------------------------------------------- search

  /** Whether a group matches the lower-cased query: the product's SKU or
      name, or some combo's SKU or name, contains it. */
  predicate GroupMatches(g: ComboGroup, query: string) {
    Contains(Lower(g.product.sku), query) || Contains(Lower(g.product.name), query) ||
    exists c :: c in g.combos && (Contains(Lower(c.sku), query) || Contains(Lower(c.name), query))
  }

  /** `filteredGroups`: every group for an empty search, otherwise the
      groups matching the lower-cased search text, in order. */
  function Search(gs: seq<ComboGroup>, searchText: string): (r: seq<ComboGroup>)
    ensures searchText == "" ==> r == gs
    ensures searchText != "" ==> forall g :: g in r <==> g in gs && GroupMatches(g, Lower(searchText))
    ensures |r| <= |gs|
  {
    if searchText == "" then gs
    else Filter(gs, (g: ComboGroup) => GroupMatches(g, Lower(searchText)))
  }

  /** A search can only narrow the list: a longer query keeps a subset. */
  lemma LongerQueryNarrows(gs: seq<ComboGroup>, searchText: string, more: string)
    requires searchText != ""
    ensures forall g :: g in Search(gs, searchText + more) ==> g in Search(gs, searchText)
  {
    forall g | g in Search(gs, searchText + more)
      ensures GroupMatches(g, Lower(searchText))
    {
      var q := Lower(searchText);
      var q' := Lower(searchText + more);
      assert q' == q + Lower(more);
      ContainsLonger(Lower(g.product.sku), q, Lower(more));
      ContainsLonger(Lower(g.product.name), q, Lower(more));
      if exists c :: c in g.combos && (Contains(Lower(c.sku), q') || Contains(Lower(c.name), q')) {
        var c :| c in g.combos && (Contains(Lower(c.sku), q') || Contains(Lower(c.name), q'));
        ContainsLonger(Lower(c.sku), q, Lower(more));
        ContainsLonger(Lower(c.name), q, Lower(more));
      }
    }
  }

  // ---------------------------------------------------------------- page

  /** The page's expanded rows. */
  class ComboProductsPage {
    var expanded: set<int>

    /** The first product's row starts expanded. */
    constructor()
      ensures expanded == {1}
    {
      expanded := {1};
    }

    /** `toggleRow`: a copy of the set with the row's id added or removed. */
    method ToggleRow(productId: int)
      modifies this
      ensures expanded == Toggle(old(expanded), productId)
    {
      var next := expanded;
      if productId in next {
        next := next - {productId};
      } else {
        next := next + {productId};
      }
      expanded := next;
    }
  }
}
