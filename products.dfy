/** The products page: combos gathered under the products they are made from when
    the list loads, the variant editor (bulk apply, row removal, per-variant
    combos, the save filter) and the search box. */
module Products {
  import opened Text
  import opened Lists
  import opened Catalog
  import Inventory

  /** A combo shown under the variant it is made from (`variant.combos`). Combos the
      editor adds have no id and no name yet. */
  datatype ComboRef = ComboRef(
    id: Option<int>, sku: string, name: string, price: int, cost: int, stock: int, quantity: int)

  /** A combo of several variants, shown under its product (`mixCombos`). */
  datatype MixCombo = MixCombo(
    id: int, sku: string, name: string, price: int, cost: int, stock: int, items: seq<ComboItem>)

  /** A variant as the page holds it: the stored fields, the editor's stock lock and
      the combos attached for display. The page writes the whole object back when
      a product is saved, so stored variants may carry stale `combos`. */
  datatype PageVariant = PageVariant(
    sku: string, color: string, stock: int, cost: int, price: int,
    isOriginal: bool, combos: seq<ComboRef>)

  /** The `variants` text of a product on the page: absent, parsed, or unparseable. */
  datatype PageVariants = NoList | List(rows: seq<PageVariant>) | BadList

  datatype PageProduct = PageProduct(
    id: int, sku: string, barcode: string, name: string, stock: int, cost: int, price: int,
    variants: PageVariants, mixCombos: seq<MixCombo>)

  /** The rows a product's variants parse to, or none. */
  function Rows(v: PageVariants): seq<PageVariant> {
    if v.List? then v.rows else []
  }

  // ---------------------------------------------------------------------------
  // Loading: duplicate combos dropped, old attachments cleared, combos attached
  // ---------------------------------------------------------------------------

  function Skus(cs: seq<Combo>): (r: seq<string>)
    ensures |r| == |cs| && forall k :: 0 <= k < |cs| ==> r[k] == cs[k].sku
  {
    seq(|cs|, k requires 0 <= k < |cs| => cs[k].sku)
  }

  /** The `reduce` that keeps a combo only when no combo kept before has its SKU. */
  function UniqueCombos(cs: seq<Combo>): (r: seq<Combo>)
    ensures |r| <= |cs|
  {
    if cs == [] then []
    else
      var u := UniqueCombos(cs[..|cs| - 1]);
      if Inventory.ComboIndexBySku(u, cs[|cs| - 1].sku) >= 0 then u else u + [cs[|cs| - 1]]
  }

  /** Whether a SKU is already kept is whether it is among the kept SKUs. */
  lemma ComboTaken(u: seq<Combo>, sku: string)
    ensures Inventory.ComboIndexBySku(u, sku) >= 0 <==> sku in Skus(u)
  {
    if sku in Skus(u) {
      var k :| 0 <= k < |u| && Skus(u)[k] == sku;
      assert u[k].sku == sku;
    }
  }

  /** The kept combos carry each SKU once, in the order the SKUs first appear. */
  lemma {:induction false} UniqueCombosSkus(cs: seq<Combo>)
    ensures Skus(UniqueCombos(cs)) == Distinct(Skus(cs))
  {
    if cs != [] {
      var init := cs[..|cs| - 1];
      var last := cs[|cs| - 1];
      var u := UniqueCombos(init);
      UniqueCombosSkus(init);
      ComboTaken(u, last.sku);
      SkusOfPrefix(cs);
      DistinctStep(Skus(cs));
      SkusAppend(u, last);
    }
  }

  lemma SkusOfPrefix(cs: seq<Combo>)
    requires cs != []
    ensures Skus(cs)[..|cs| - 1] == Skus(cs[..|cs| - 1]) && Skus(cs)[|cs| - 1] == cs[|cs| - 1].sku
  {
  }

  lemma SkusAppend(u: seq<Combo>, c: Combo)
    ensures Skus(u + [c]) == Skus(u) + [c.sku]
  {
  }

  lemma DistinctStep(s: seq<string>)
    requires s != []
    ensures var d := Distinct(s[..|s| - 1]);
      Distinct(s) == if s[|s| - 1] in d then d else d + [s[|s| - 1]]
  {
  }

  /** Each kept combo is the first combo with its SKU. */
  lemma {:induction false} UniqueCombosKeepsFirst(cs: seq<Combo>)
    ensures forall k :: 0 <= k < |UniqueCombos(cs)| ==> KeptFirst(cs, UniqueCombos(cs)[k])
  {
    if cs != [] {
      var init := cs[..|cs| - 1];
      var last := cs[|cs| - 1];
      var u := UniqueCombos(init);
      UniqueCombosKeepsFirst(init);
      SkusOfPrefix(cs);
      forall k | 0 <= k < |u| ensures KeptFirst(cs, u[k]) {
        KeptFirstInLonger(cs, u[k]);
      }
      if Inventory.ComboIndexBySku(u, last.sku) < 0 {
        UniqueCombosSkus(init);
        ComboTaken(u, last.sku);
        assert last.sku !in Skus(cs)[..|cs| - 1];
        FirstIndexIs(Skus(cs), last.sku, |cs| - 1);
        assert UniqueCombos(cs) == u + [last];
      }
    }
  }

  /** c is the first combo of cs with its SKU. */
  predicate KeptFirst(cs: seq<Combo>, c: Combo) {
    c.sku in Skus(cs) && c == cs[FirstIndex(Skus(cs), c.sku)]
  }

  lemma KeptFirstInLonger(cs: seq<Combo>, c: Combo)
    requires cs != [] && KeptFirst(cs[..|cs| - 1], c)
    ensures KeptFirst(cs, c)
  {
    SkusOfPrefix(cs);
    FirstIndexOfPrefix(Skus(cs), c.sku);
  }

  /** `delete v.combos` on every variant that parses, and `delete product.mixCombos`. */
  function ClearCombos(p: PageProduct): (r: PageProduct)
    ensures r.mixCombos == [] && forall v :: v in Rows(r.variants) ==> v.combos == []
    ensures r == p.(variants := r.variants, mixCombos := [])
    ensures r.variants.List? <==> p.variants.List?
    ensures |Rows(r.variants)| == |Rows(p.variants)|
    ensures forall j :: 0 <= j < |Rows(p.variants)| ==> Rows(r.variants)[j] == Rows(p.variants)[j].(combos := [])
  {
    var vs := Rows(p.variants);
    var cleared := seq(|vs|, j requires 0 <= j < |vs| => vs[j].(combos := []));
    p.(variants := if p.variants.List? then List(cleared) else p.variants, mixCombos := [])
  }

  /** `allProducts.find(p => p.id === id)`, as an index. */
  function ProductIndexById(ps: seq<PageProduct>, id: int): (r: int)
    ensures -1 <= r < |ps|
    ensures r >= 0 ==> ps[r].id == id
    ensures forall k :: 0 <= k < |ps| && (r == -1 || k < r) ==> ps[k].id != id
  {
    if ps == [] then -1
    else if ps[0].id == id then 0
    else
      var r := ProductIndexById(ps[1..], id);
      assert forall k :: 1 <= k < |ps| ==> ps[k] == ps[1..][k - 1];
      if r == -1 then -1 else r + 1
  }

  /** The parent of a combo whose items parse and are not empty: the first product
      with the id of the first item's product, or -1. */
  function ParentIndex(ps: seq<PageProduct>, c: Combo): (r: int)
    ensures -1 <= r < |ps|
  {
    if c.items.Items? && c.items.list != [] then ProductIndexById(ps, c.items.list[0].productId) else -1
  }

  function AsMix(c: Combo): MixCombo
    requires c.items.Items?
  {
    MixCombo(c.id, c.sku, c.name, c.price, c.cost, c.stock, c.items.list)
  }

  function AsRef(c: Combo, quantity: int): ComboRef {
    ComboRef(Some(c.id), c.sku, c.name, c.price, c.cost, c.stock, quantity)
  }

  /** Attaching one combo. A combo of several items goes to its parent's mix combos;
      a one-item combo goes to the variant its item names, only when that variant
      exists. Either way the parent's variants are written back as a parsed list,
      the empty one when they were absent or did not parse. Every other product,
      and a combo without a parent, leaves the list as it was. */
  function AttachOne(ps: seq<PageProduct>, c: Combo): (r: seq<PageProduct>)
    ensures |r| == |ps|
    ensures var k := ParentIndex(ps, c);
      (k == -1 ==> r == ps) &&
      (forall i :: 0 <= i < |ps| && i != k ==> r[i] == ps[i]) &&
      (k >= 0 ==> r[k] == ps[k].(variants := r[k].variants, mixCombos := r[k].mixCombos) &&
                  r[k].variants == List(Rows(r[k].variants)))
    ensures var k := ParentIndex(ps, c);
      k >= 0 && |c.items.list| > 1 ==>
        r[k].mixCombos == ps[k].mixCombos + [AsMix(c)] && Rows(r[k].variants) == Rows(ps[k].variants)
    ensures var k := ParentIndex(ps, c);
      k >= 0 && |c.items.list| == 1 ==>
        var it := c.items.list[0];
        var vs := Rows(ps[k].variants);
        r[k].mixCombos == ps[k].mixCombos &&
        if 0 <= it.variantIndex < |vs| then
          Rows(r[k].variants) == vs[it.variantIndex := vs[it.variantIndex].(combos := vs[it.variantIndex].combos + [AsRef(c, it.quantity)])]
        else Rows(r[k].variants) == vs
  {
    var k := ParentIndex(ps, c);
    if k == -1 then ps
    else
      var items := c.items.list;
      var parent := ps[k];
      var vs := Rows(parent.variants);
      if |items| > 1 then
        ps[k := parent.(variants := List(vs), mixCombos := parent.mixCombos + [AsMix(c)])]
      else
        var it := items[0];
        if 0 <= it.variantIndex < |vs| then
          var v := vs[it.variantIndex];
          ps[k := parent.(variants := List(vs[it.variantIndex := v.(combos := v.combos + [AsRef(c, it.quantity)])]))]
        else ps[k := parent.(variants := List(vs))]
  }

  /** The combos attached one after the other, in order. */
  function AttachAll(ps: seq<PageProduct>, cs: seq<Combo>): (r: seq<PageProduct>)
    ensures |r| == |ps|
  {
    if cs == [] then ps else AttachOne(AttachAll(ps, cs[..|cs| - 1]), cs[|cs| - 1])
  }

  function ClearAll(ps: seq<PageProduct>): (r: seq<PageProduct>)
    ensures |r| == |ps| && forall k :: 0 <= k < |ps| ==> r[k] == ClearCombos(ps[k])
  {
    seq(|ps|, k requires 0 <= k < |ps| => ClearCombos(ps[k]))
  }

  /** The list `loadProducts` shows. */
  function Load(ps: seq<PageProduct>, cs: seq<Combo>): (r: seq<PageProduct>)
    ensures Shape(r) == Shape(ps)
    ensures |r| == |ps| && forall k :: 0 <= k < |ps| ==> r[k].id == ps[k].id
  {
    ClearAllEmpties(ps);
    AttachAllCounts(ClearAll(ps), UniqueCombos(cs));
    var r := AttachAll(ClearAll(ps), UniqueCombos(cs));
    assert forall k :: 0 <= k < |ps| ==> Shape(r)[k] == Shape(ps)[k];
    r
  }

  // What the attachments do not change, and how many there are.

  /** Per product: its id and how many variant rows it has. */
  function Shape(ps: seq<PageProduct>): (r: seq<(int, nat)>)
    ensures |r| == |ps| && forall k :: 0 <= k < |ps| ==> r[k] == (ps[k].id, |Rows(ps[k].variants)|)
  {
    seq(|ps|, k requires 0 <= k < |ps| => (ps[k].id, |Rows(ps[k].variants)|))
  }

  function ShapeIndexById(sh: seq<(int, nat)>, id: int): (r: int)
    ensures -1 <= r < |sh|
    ensures r >= 0 ==> sh[r].0 == id
    ensures forall k :: 0 <= k < |sh| && (r == -1 || k < r) ==> sh[k].0 != id
  {
    if sh == [] then -1
    else if sh[0].0 == id then 0
    else
      var r := ShapeIndexById(sh[1..], id);
      assert forall k :: 1 <= k < |sh| ==> sh[k] == sh[1..][k - 1];
      if r == -1 then -1 else r + 1
  }

  /** Whether a combo finds a place: its items parse and are not empty, its parent
      exists, and it either has several items or names an existing variant. */
  predicate Attachable(sh: seq<(int, nat)>, c: Combo) {
    c.items.Items? && c.items.list != [] &&
    var k := ShapeIndexById(sh, c.items.list[0].productId);
    k >= 0 && (|c.items.list| > 1 || 0 <= c.items.list[0].variantIndex < sh[k].1)
  }

  function CountAttachable(sh: seq<(int, nat)>, cs: seq<Combo>): nat {
    if cs == [] then 0
    else CountAttachable(sh, cs[..|cs| - 1]) + (if Attachable(sh, cs[|cs| - 1]) then 1 else 0)
  }

  function RowCombos(vs: seq<PageVariant>): nat {
    if vs == [] then 0 else |vs[0].combos| + RowCombos(vs[1..])
  }

  function ProductCombos(p: PageProduct): nat {
    |p.mixCombos| + RowCombos(Rows(p.variants))
  }

  /** Every combo shown anywhere in the list: mix combos and variant combos. */
  function Attachments(ps: seq<PageProduct>): nat {
    if ps == [] then 0 else ProductCombos(ps[0]) + Attachments(ps[1..])
  }

  lemma {:induction false} RowCombosUpdate(vs: seq<PageVariant>, j: nat, v: PageVariant)
    requires j < |vs|
    ensures RowCombos(vs[j := v]) == RowCombos(vs) - |vs[j].combos| + |v.combos|
  {
    if j > 0 {
      RowCombosUpdate(vs[1..], j - 1, v);
      assert vs[j := v][1..] == vs[1..][j - 1 := v];
    }
  }

  lemma {:induction false} AttachmentsUpdate(ps: seq<PageProduct>, k: nat, p: PageProduct)
    requires k < |ps|
    ensures Attachments(ps[k := p]) == Attachments(ps) - ProductCombos(ps[k]) + ProductCombos(p)
  {
    if k > 0 {
      AttachmentsUpdate(ps[1..], k - 1, p);
      assert ps[k := p][1..] == ps[1..][k - 1 := p];
    }
  }

  lemma {:induction false} RowCombosCleared(vs: seq<PageVariant>)
    requires forall j :: 0 <= j < |vs| ==> vs[j].combos == []
    ensures RowCombos(vs) == 0
  {
    if vs != [] {
      RowCombosCleared(vs[1..]);
    }
  }

  lemma {:induction false} AttachmentsCleared(ps: seq<PageProduct>)
    requires forall k :: 0 <= k < |ps| ==> ps[k] == ClearCombos(ps[k])
    ensures Attachments(ps) == 0
  {
    if ps != [] {
      var vs := Rows(ps[0].variants);
      assert forall j :: 0 <= j < |vs| ==> vs[j].combos == [] by {
        forall j | 0 <= j < |vs| ensures vs[j].combos == [] {
          assert vs[j] in Rows(ClearCombos(ps[0]).variants);
        }
      }
      RowCombosCleared(vs);
      AttachmentsCleared(ps[1..]);
    }
  }

  /** Clearing keeps every product's id and row count and leaves nothing attached. */
  lemma ClearAllEmpties(ps: seq<PageProduct>)
    ensures Shape(ClearAll(ps)) == Shape(ps)
    ensures Attachments(ClearAll(ps)) == 0
  {
    var r := ClearAll(ps);
    forall k | 0 <= k < |ps| ensures r[k] == ClearCombos(r[k]) {
      var a := ClearCombos(r[k]);
      assert |Rows(a.variants)| == |Rows(r[k].variants)|;
      assert Rows(a.variants) == Rows(r[k].variants);
    }
    AttachmentsCleared(r);
  }

  /** One attachment keeps the shape and adds one shown combo exactly when the
      combo finds a place. */
  lemma AttachOneCounts(ps: seq<PageProduct>, c: Combo)
    ensures Shape(AttachOne(ps, c)) == Shape(ps)
    ensures Attachments(AttachOne(ps, c)) == Attachments(ps) + (if Attachable(Shape(ps), c) then 1 else 0)
  {
    var r := AttachOne(ps, c);
    var k := ParentIndex(ps, c);
    if c.items.Items? && c.items.list != [] {
      var id := c.items.list[0].productId;
      assert ShapeIndexById(Shape(ps), id) == ProductIndexById(ps, id) by {
        var a, b := ShapeIndexById(Shape(ps), id), ProductIndexById(ps, id);
        if a >= 0 { assert ps[a].id == id; }
        if b >= 0 { assert Shape(ps)[b].0 == id; }
      }
    }
    if k >= 0 {
      assert r == ps[k := r[k]];
      AttachmentsUpdate(ps, k, r[k]);
      var vs := Rows(ps[k].variants);
      var it := c.items.list[0];
      if |c.items.list| == 1 && 0 <= it.variantIndex < |vs| {
        var v := vs[it.variantIndex];
        RowCombosUpdate(vs, it.variantIndex, v.(combos := v.combos + [AsRef(c, it.quantity)]));
      }
      assert Shape(r) == Shape(ps);
    }
  }

  lemma {:induction false} AttachAllCounts(ps: seq<PageProduct>, cs: seq<Combo>)
    ensures Shape(AttachAll(ps, cs)) == Shape(ps)
    ensures Attachments(AttachAll(ps, cs)) == Attachments(ps) + CountAttachable(Shape(ps), cs)
  {
    if cs != [] {
      AttachAllCounts(ps, cs[..|cs| - 1]);
      AttachOneCounts(AttachAll(ps, cs[..|cs| - 1]), cs[|cs| - 1]);
    }
  }

  /** Each combo that finds a place is shown once: the list shows exactly as many
      combos as there are distinct-SKU combos with a place, whatever was attached
      to the products before. */
  lemma LoadShowsEachComboOnce(ps: seq<PageProduct>, cs: seq<Combo>)
    ensures Shape(Load(ps, cs)) == Shape(ps)
    ensures Attachments(Load(ps, cs)) == CountAttachable(Shape(ps), UniqueCombos(cs))
  {
    ClearAllEmpties(ps);
    AttachAllCounts(ClearAll(ps), UniqueCombos(cs));
  }

  /** Loading again from the loaded list attaches nothing twice. */
  lemma ReloadDoesNotDuplicate(ps: seq<PageProduct>, cs: seq<Combo>)
    ensures Attachments(Load(Load(ps, cs), cs)) == Attachments(Load(ps, cs))
  {
    LoadShowsEachComboOnce(ps, cs);
    LoadShowsEachComboOnce(Load(ps, cs), cs);
  }

  /** The product list the page shows. */
  class ProductsPage {
    var products: seq<PageProduct>

    constructor()
      ensures products == []
    {
      products := [];
    }

    /** `loadProducts`: drop combos whose SKU came earlier, clear what earlier loads
        attached, then attach the combos in order. */
    method LoadProducts(db: seq<PageProduct>, combos: seq<Combo>)
      modifies this
      ensures products == Load(db, combos)
    {
      var unique := DedupCombos(combos);
      ClearLoaded(db);
      AttachLoaded(unique);
    }

    /** Sets the list to the loaded products with their combos cleared. */
    method ClearLoaded(db: seq<PageProduct>)
      modifies this
      ensures products == ClearAll(db)
    {
      products := db;
      var k := 0;
      while k < |products|
        invariant 0 <= k <= |products| == |db|
        invariant forall j :: 0 <= j < k ==> products[j] == ClearCombos(db[j])
        invariant forall j :: k <= j < |db| ==> products[j] == db[j]
      {
        products := products[k := ClearCombos(products[k])];
        k := k + 1;
      }
    }

    /** Attaches each combo, in order, to the products on the list. */
    method AttachLoaded(unique: seq<Combo>)
      modifies this
      ensures products == AttachAll(old(products), unique)
    {
      var n := 0;
      while n < |unique|
        invariant 0 <= n <= |unique|
        invariant products == AttachAll(old(products), unique[..n])
      {
        assert unique[..n + 1][..n] == unique[..n];
        products := AttachOne(products, unique[n]);
        n := n + 1;
      }
      assert unique[..|unique|] == unique;
    }
  }

  /** The combos with a SKU seen earlier dropped, as the `reduce` over the combo list
      builds them. */
  method DedupCombos(combos: seq<Combo>) returns (unique: seq<Combo>)
    ensures unique == UniqueCombos(combos)
  {
    unique := [];
    var i := 0;
    while i < |combos|
      invariant 0 <= i <= |combos|
      invariant unique == UniqueCombos(combos[..i])
    {
      assert combos[..i + 1][..i] == combos[..i];
      if Inventory.ComboIndexBySku(unique, combos[i].sku) < 0 {
        unique := unique + [combos[i]];
      }
      i := i + 1;
    }
    assert combos[..|combos|] == combos;
  }

  // ---------------------------------------------------------------------------
  // Search
  // ---------------------------------------------------------------------------

  /** The lower-cased query occurs in the SKU, the barcode or the name, lower-cased. */
  predicate MatchesSearch(p: PageProduct, search: string) {
    Contains(Lower(p.sku), search) || Contains(Lower(p.barcode), search) || Contains(Lower(p.name), search)
  }

  /** `filteredProducts`: a blank search keeps every product; otherwise the products
      matching the lower-cased search text (which is not trimmed), in order. */
  function FilteredProducts(ps: seq<PageProduct>, searchText: string): (r: seq<PageProduct>)
    ensures Trim(searchText) == "" ==> r == ps
    ensures forall p :: p in r <==> p in ps && (Trim(searchText) == "" || MatchesSearch(p, Lower(searchText)))
    ensures |r| <= |ps|
  {
    if ps == [] then []
    else
      var keep := Trim(searchText) == "" || MatchesSearch(ps[0], Lower(searchText));
      (if keep then [ps[0]] else []) + FilteredProducts(ps[1..], searchText)
  }

  // ---------------------------------------------------------------------------
  // The variant editor
  // ---------------------------------------------------------------------------

  /** `bulkCost || v.cost`, `bulkPrice || v.price`, and a non-zero bulk stock only on
      variants that were not loaded from the saved product. */
  function BulkApplied(vs: seq<PageVariant>, cost: int, price: int, stock: int): (r: seq<PageVariant>)
    ensures |r| == |vs|
    ensures forall j :: 0 <= j < |vs| ==>
      r[j] == vs[j].(cost := r[j].cost, price := r[j].price, stock := r[j].stock) &&
      r[j].cost == (if cost != 0 then cost else vs[j].cost) &&
      r[j].price == (if price != 0 then price else vs[j].price) &&
      r[j].stock == (if !vs[j].isOriginal && stock != 0 then stock else vs[j].stock)
  {
    seq(|vs|, j requires 0 <= j < |vs| =>
      vs[j].(cost := if cost != 0 then cost else vs[j].cost,
             price := if price != 0 then price else vs[j].price,
             stock := if !vs[j].isOriginal && stock != 0 then stock else vs[j].stock))
  }

  /** All-zero bulk values change nothing; applying the same values twice is the
      same as once; a loaded variant's stock never changes. */
  lemma BulkApplyProperties(vs: seq<PageVariant>, cost: int, price: int, stock: int)
    ensures BulkApplied(vs, 0, 0, 0) == vs
    ensures BulkApplied(BulkApplied(vs, cost, price, stock), cost, price, stock) == BulkApplied(vs, cost, price, stock)
    ensures forall j :: 0 <= j < |vs| && vs[j].isOriginal ==> BulkApplied(vs, cost, price, stock)[j].stock == vs[j].stock
  {
    var once := BulkApplied(vs, cost, price, stock);
    var twice := BulkApplied(once, cost, price, stock);
    assert forall j :: 0 <= j < |vs| ==> twice[j] == once[j];
    var zero := BulkApplied(vs, 0, 0, 0);
    assert forall j :: 0 <= j < |vs| ==> zero[j] == vs[j];
  }

  /** A variant is kept on save when its colour is not blank. */
  predicate HasColour(v: PageVariant) {
    Trim(v.color) != ""
  }

  /** `variants.filter(v => v.color && v.color.trim() !== '')` */
  function ValidVariants(vs: seq<PageVariant>): (r: seq<PageVariant>)
    ensures |r| <= |vs|
  {
    if vs == [] then []
    else (if HasColour(vs[0]) then [vs[0]] else []) + ValidVariants(vs[1..])
  }

  /** The kept variants are exactly those with a colour. */
  lemma {:induction false} ValidVariantsMembers(vs: seq<PageVariant>)
    ensures forall v :: v in ValidVariants(vs) <==> v in vs && HasColour(v)
  {
    if vs != [] {
      ValidVariantsMembers(vs[1..]);
      assert vs == [vs[0]] + vs[1..];
    }
  }

  predicate AllHaveColour(vs: seq<PageVariant>) {
    forall j :: 0 <= j < |vs| ==> HasColour(vs[j])
  }

  /** A list without blank colours is kept whole. */
  lemma {:induction false} ValidVariantsKeepsValid(vs: seq<PageVariant>)
    requires AllHaveColour(vs)
    ensures ValidVariants(vs) == vs
  {
    if vs != [] {
      AllHaveColourSplit(vs);
      ValidVariantsKeepsValid(vs[1..]);
      calc {
        ValidVariants(vs);
        [vs[0]] + ValidVariants(vs[1..]);
        [vs[0]] + vs[1..];
        { SeqHeadTail(vs); }
        vs;
      }
    }
  }

  lemma SeqHeadTail(vs: seq<PageVariant>)
    requires vs != []
    ensures [vs[0]] + vs[1..] == vs
  {
  }

  lemma AllHaveColourSplit(vs: seq<PageVariant>)
    requires vs != [] && AllHaveColour(vs)
    ensures HasColour(vs[0]) && AllHaveColour(vs[1..])
  {
    var rest := vs[1..];
    forall j | 0 <= j < |rest| ensures HasColour(rest[j]) {
      assert rest[j] == vs[j + 1];
    }
  }

  /** Filtering twice is filtering once. */
  lemma ValidVariantsIdempotent(vs: seq<PageVariant>)
    ensures ValidVariants(ValidVariants(vs)) == ValidVariants(vs)
  {
    var r := ValidVariants(vs);
    ValidVariantsMembers(vs);
    forall j | 0 <= j < |r| ensures HasColour(r[j]) {
      assert r[j] in r;
    }
    ValidVariantsKeepsValid(r);
  }

  /** The saved `variants` column: the kept variants, or null when none is left. */
  function VariantsPayload(vs: seq<PageVariant>): (r: Option<seq<PageVariant>>)
    ensures r.None? <==> forall v :: v in vs ==> !HasColour(v)
    ensures r.Some? ==> r.value == ValidVariants(vs) && r.value != []
  {
    var valid := ValidVariants(vs);
    ValidVariantsMembers(vs);
    if valid == [] then None
    else
      assert valid[0] in vs;
      Some(valid)
  }

  /** Length of the run of digits at the start of s. */
  function LeadingDigits(s: string): (n: nat)
    ensures n <= |s| && AllDigits(s[..n]) && (n < |s| ==> !IsDigit(s[n]))
  {
    if s == [] || !IsDigit(s[0]) then 0
    else
      var n := LeadingDigits(s[1..]);
      assert s[..n + 1] == [s[0]] + s[1..][..n];
      n + 1
  }

  /** `baseSku.replace(/^\d+/, qty.toString())`: the leading digit run, if any, is
      replaced by the quantity; a SKU that does not start with a digit is kept. */
  function ComboSku(base: string, qty: int): (r: string)
    ensures LeadingDigits(base) == 0 ==> r == base
    ensures LeadingDigits(base) > 0 ==> r == IntToString(qty) + base[LeadingDigits(base)..]
  {
    var n := LeadingDigits(base);
    if n == 0 then base else IntToString(qty) + base[n..]
  }

  /** The combo SKU reads back its quantity: its leading digits spell qty and the
      rest of the base SKU follows unchanged. */
  lemma ComboSkuReadsBackQuantity(base: string, qty: nat)
    requires LeadingDigits(base) > 0
    ensures var r := ComboSku(base, qty);
      LeadingDigits(r) == |NatToString(qty)| &&
      DigitsValue(r[..LeadingDigits(r)]) == qty &&
      r[LeadingDigits(r)..] == base[LeadingDigits(base)..]
  {
    var digits := NatToString(qty);
    var rest := base[LeadingDigits(base)..];
    LeadingDigitsOfConcat(digits, rest);
    var r := digits + rest;
    assert r[..|digits|] == digits;
    assert r[|digits|..] == rest;
    DigitsValueOfNatToString(qty);
  }

  lemma {:induction false} LeadingDigitsOfConcat(d: string, rest: string)
    requires AllDigits(d) && (rest != [] ==> !IsDigit(rest[0]))
    ensures LeadingDigits(d + rest) == |d|
  {
    if d != [] {
      assert (d + rest)[1..] == d[1..] + rest;
      LeadingDigitsOfConcat(d[1..], rest);
    } else {
      assert d + rest == rest;
    }
  }

  /** The variant rows being edited, and the bulk values above them. */
  class VariantEditor {
    var rows: seq<PageVariant>
    var bulkCost: int
    var bulkPrice: int
    var bulkStock: int

    constructor(loaded: seq<PageVariant>)
      ensures rows == loaded && bulkCost == 0 && bulkPrice == 0 && bulkStock == 0
    {
      rows := loaded;
      bulkCost, bulkPrice, bulkStock := 0, 0, 0;
    }

    /** `handleBulkApply`: nothing happens without rows; otherwise the bulk values
        are applied to every row and reset to 0. */
    method BulkApply() returns (applied: bool)
      modifies this
      ensures applied <==> old(rows) != []
      ensures !applied ==>
        rows == old(rows) && bulkCost == old(bulkCost) && bulkPrice == old(bulkPrice) && bulkStock == old(bulkStock)
      ensures applied ==>
        rows == BulkApplied(old(rows), old(bulkCost), old(bulkPrice), old(bulkStock)) &&
        bulkCost == 0 && bulkPrice == 0 && bulkStock == 0
    {
      if rows == [] {
        return false;
      }
      rows := BulkApplied(rows, bulkCost, bulkPrice, bulkStock);
      bulkCost, bulkPrice, bulkStock := 0, 0, 0;
      return true;
    }

    /** The delete button of row i. */
    method DeleteRow(i: int)
      modifies this
      ensures rows == RemoveAt(old(rows), i)
      ensures bulkCost == old(bulkCost) && bulkPrice == old(bulkPrice) && bulkStock == old(bulkStock)
    {
      rows := RemoveAt(rows, i);
    }

    /** The combo dialog's OK: the chosen base row must exist and have a SKU; a combo
        of qty packs is then added to that row, its SKU derived from the base SKU,
        its cost and price qty times the base's, its stock 0. */
    method AddCombo(base: Option<int>, qty: int) returns (added: bool)
      modifies this
      ensures added <==> base.Some? && 0 <= base.value < |old(rows)| && old(rows)[base.value].sku != ""
      ensures !added ==> rows == old(rows)
      ensures added ==>
        var b := old(rows)[base.value];
        rows == old(rows)[base.value := b.(combos := b.combos +
          [ComboRef(None, ComboSku(b.sku, qty), "", b.price * qty, b.cost * qty, 0, qty)])]
      ensures bulkCost == old(bulkCost) && bulkPrice == old(bulkPrice) && bulkStock == old(bulkStock)
    {
      if base.None? || !(0 <= base.value < |rows|) || rows[base.value].sku == "" {
        return false;
      }
      var i := base.value;
      var b := rows[i];
      var combo := ComboRef(None, ComboSku(b.sku, qty), "", b.price * qty, b.cost * qty, 0, qty);
      rows := rows[i := b.(combos := b.combos + [combo])];
      return true;
    }
  }
}
