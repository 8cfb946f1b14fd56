/** The stock-keeping IPC handlers of the desktop back end: single SKU updates
    clamped at zero, combo deduction, the stock a combo can be assembled from,
    and the stock increment when a purchase order is created. The database is
    the `Store` object's `products` and `combos` sequences. */
module Inventory {
  import opened Lists
  import opened Catalog

  /** `Math.max(0, isAdd ? old + q : old - q)` */
  function Adjusted(current: int, q: int, isAdd: bool): (r: int)
    ensures r >= 0
    ensures r >= (if isAdd then current + q else current - q)
    ensures r == 0 || r == (if isAdd then current + q else current - q)
  {
    var n := if isAdd then current + q else current - q;
    if n < 0 then 0 else n
  }

  /** Taking q out and putting it back restores a stock that held at least q. */
  lemma DeductThenRestore(s: int, q: int)
    requires 0 <= q <= s
    ensures Adjusted(Adjusted(s, q, false), q, true) == s
  {
  }

  /** The arguments of one `products:updateStock` call made by a page. */
  datatype StockRequest = StockRequest(sku: string, quantity: int, isAdd: bool)

  /** Where a SKU's stock lives. */
  datatype Location = AtProduct(p: nat) | AtVariant(p: nat, v: nat) | Unknown

  /** `prisma.product.findUnique({ where: { sku } })`, as an index (SKUs are unique). */
  function ProductIndexBySku(ps: seq<Product>, sku: string): (r: int)
    ensures -1 <= r < |ps|
    ensures r >= 0 ==> ps[r].sku == sku
    ensures forall k :: 0 <= k < |ps| && (r == -1 || k < r) ==> ps[k].sku != sku
  {
    if ps == [] then -1
    else if ps[0].sku == sku then 0
    else
      var r := ProductIndexBySku(ps[1..], sku);
      assert forall k :: 1 <= k < |ps| ==> ps[k] == ps[1..][k - 1];
      if r == -1 then -1 else r + 1
  }

  /** The product's variants parse and one of them has this SKU. */
  predicate HasVariant(p: Product, sku: string) {
    p.variants.Parsed? && VariantIndexBySku(p.variants.list, sku) >= 0
  }

  /** Index of the first product at or after `from` that has a variant with this SKU. */
  function VariantOwnerFrom(ps: seq<Product>, sku: string, from: nat): (r: int)
    requires from <= |ps|
    ensures r == -1 || (from <= r < |ps| && HasVariant(ps[r], sku))
    ensures forall k :: from <= k < |ps| && (r == -1 || k < r) ==> !HasVariant(ps[k], sku)
    decreases |ps| - from
  {
    if from == |ps| then -1
    else if HasVariant(ps[from], sku) then from
    else VariantOwnerFrom(ps, sku, from + 1)
  }

  /** Where `updateSingleProductStock` finds a SKU: the product with that SKU, else
      the first variant with it in the first product whose variants parse. */
  function Locate(ps: seq<Product>, sku: string): (loc: Location)
    ensures loc.AtProduct? ==>
      loc.p < |ps| && ps[loc.p].sku == sku && forall k :: 0 <= k < loc.p ==> ps[k].sku != sku
    ensures loc.AtVariant? ==>
      loc.p < |ps| && ps[loc.p].variants.Parsed? &&
      loc.v < |ps[loc.p].variants.list| && ps[loc.p].variants.list[loc.v].sku == sku &&
      (forall j :: 0 <= j < loc.v ==> ps[loc.p].variants.list[j].sku != sku) &&
      (forall k :: 0 <= k < |ps| ==> ps[k].sku != sku) &&
      (forall k :: 0 <= k < loc.p ==> !HasVariant(ps[k], sku))
    ensures loc.Unknown? <==> forall k :: 0 <= k < |ps| ==> ps[k].sku != sku && !HasVariant(ps[k], sku)
  {
    var i := ProductIndexBySku(ps, sku);
    if i >= 0 then AtProduct(i)
    else
      var o := VariantOwnerFrom(ps, sku, 0);
      if o >= 0 then AtVariant(o, VariantIndexBySku(ps[o].variants.list, sku)) else Unknown
  }

  /** A location that names an existing product or variant. */
  predicate ValidLocation(ps: seq<Product>, loc: Location) {
    match loc
    case AtProduct(p) => p < |ps|
    case AtVariant(p, v) => p < |ps| && ps[p].variants.Parsed? && v < |ps[p].variants.list|
    case Unknown => false
  }

  function StockAt(ps: seq<Product>, loc: Location): int
    requires ValidLocation(ps, loc)
  {
    match loc
    case AtProduct(p) => ps[p].stock
    case AtVariant(p, v) => ps[p].variants.list[v].stock
  }

  /** The products with the stock at `loc` replaced by n and everything else kept. */
  function WithStock(ps: seq<Product>, loc: Location, n: int): (r: seq<Product>)
    requires ValidLocation(ps, loc)
    ensures |r| == |ps| && ValidLocation(r, loc) && StockAt(r, loc) == n
    ensures forall k :: 0 <= k < |ps| && k != loc.p ==> r[k] == ps[k]
    ensures loc.AtProduct? ==> r[loc.p] == ps[loc.p].(stock := n)
    ensures loc.AtVariant? ==>
      var vs := ps[loc.p].variants.list;
      r[loc.p] == ps[loc.p].(variants := Parsed(vs[loc.v := vs[loc.v].(stock := n)]))
  {
    match loc
    case AtProduct(p) => ps[p := ps[p].(stock := n)]
    case AtVariant(p, v) =>
      var vs := ps[p].variants.list;
      ps[p := ps[p].(variants := Parsed(vs[v := vs[v].(stock := n)]))]
  }

  /** `updateSingleProductStock(sku, quantity, isAdd)`: the new product list, or None
      for an unknown SKU. */
  function UpdateSingle(ps: seq<Product>, sku: string, q: int, isAdd: bool): (r: Option<seq<Product>>)
    ensures r.None? <==> Locate(ps, sku).Unknown?
    ensures r.Some? ==>
      var loc := Locate(ps, sku);
      ValidLocation(ps, loc) && r.value == WithStock(ps, loc, Adjusted(StockAt(ps, loc), q, isAdd))
  {
    var loc := Locate(ps, sku);
    if loc.Unknown? then None else Some(WithStock(ps, loc, Adjusted(StockAt(ps, loc), q, isAdd)))
  }

  /** Two product lists that differ at most in stock: the same SKUs, the same
      variant lists' shape and variant SKUs. */
  predicate SameSkus(ps: seq<Product>, qs: seq<Product>) {
    |ps| == |qs| &&
    forall k :: 0 <= k < |ps| ==>
      ps[k].sku == qs[k].sku && ps[k].variants.Parsed? == qs[k].variants.Parsed? &&
      (ps[k].variants.Parsed? ==>
        |ps[k].variants.list| == |qs[k].variants.list| &&
        forall j :: 0 <= j < |ps[k].variants.list| ==> ps[k].variants.list[j].sku == qs[k].variants.list[j].sku)
  }

  /** Changing one stock figure changes no SKU. */
  lemma WithStockSameSkus(ps: seq<Product>, loc: Location, n: int)
    requires ValidLocation(ps, loc)
    ensures SameSkus(ps, WithStock(ps, loc, n))
  {
  }

  /** Where a SKU lives depends on the SKUs alone, not on any stock. */
  lemma LocateSameSkus(ps: seq<Product>, qs: seq<Product>, sku: string)
    requires SameSkus(ps, qs)
    ensures Locate(ps, sku) == Locate(qs, sku)
  {
    var i, i' := ProductIndexBySku(ps, sku), ProductIndexBySku(qs, sku);
    assert i == i' by {
      if i >= 0 { assert qs[i].sku == sku; }
      if i' >= 0 { assert ps[i'].sku == sku; }
    }
    forall k | 0 <= k < |ps| ensures HasVariant(ps[k], sku) <==> HasVariant(qs[k], sku) {
      if ps[k].variants.Parsed? {
        VariantIndexSameSkus(ps[k].variants.list, qs[k].variants.list, sku);
      }
    }
    var o, o' := VariantOwnerFrom(ps, sku, 0), VariantOwnerFrom(qs, sku, 0);
    assert o == o' by {
      if o >= 0 { assert HasVariant(qs[o], sku); }
      if o' >= 0 { assert HasVariant(ps[o'], sku); }
    }
    if i < 0 && o >= 0 {
      VariantIndexSameSkus(ps[o].variants.list, qs[o].variants.list, sku);
    }
  }

  lemma VariantIndexSameSkus(vs: seq<Variant>, ws: seq<Variant>, sku: string)
    requires |vs| == |ws| && forall j :: 0 <= j < |vs| ==> vs[j].sku == ws[j].sku
    ensures VariantIndexBySku(vs, sku) == VariantIndexBySku(ws, sku)
  {
    var a, b := VariantIndexBySku(vs, sku), VariantIndexBySku(ws, sku);
    if a >= 0 { assert ws[a].sku == sku; }
    if b >= 0 { assert vs[b].sku == sku; }
  }

  /** Exporting q units of a SKU and then deleting the export, which puts q back,
      restores the product list exactly when the stock held at least q. */
  lemma DeductThenRestoreList(ps: seq<Product>, sku: string, q: int)
    requires !Locate(ps, sku).Unknown?
    requires 0 <= q <= StockAt(ps, Locate(ps, sku))
    ensures var a := UpdateSingle(ps, sku, q, false);
      a.Some? && UpdateSingle(a.value, sku, q, true) == Some(ps)
  {
    var loc := Locate(ps, sku);
    var s := StockAt(ps, loc);
    var mid := WithStock(ps, loc, Adjusted(s, q, false));
    UpdateSingleAt(ps, sku, q, false, loc);
    var a := UpdateSingle(ps, sku, q, false);
    assert a == Some(mid);
    LocateAfterWithStock(ps, loc, Adjusted(s, q, false), sku);
    UpdateSingleAt(mid, sku, q, true, loc);
    RestoreAt(ps, loc, q);
  }

  /** Taking q out at a location and adding q back there gives the original list. */
  lemma RestoreAt(ps: seq<Product>, loc: Location, q: int)
    requires ValidLocation(ps, loc) && 0 <= q <= StockAt(ps, loc)
    ensures var mid := WithStock(ps, loc, Adjusted(StockAt(ps, loc), q, false));
      WithStock(mid, loc, Adjusted(StockAt(mid, loc), q, true)) == ps
  {
    WithStockRestore(ps, loc, StockAt(ps, loc) - q);
  }

  /** A stock change moves no SKU: every SKU is found where it was before. */
  lemma LocateAfterWithStock(ps: seq<Product>, loc: Location, n: int, sku: string)
    requires ValidLocation(ps, loc)
    ensures Locate(WithStock(ps, loc, n), sku) == Locate(ps, sku)
    ensures StockAt(WithStock(ps, loc, n), loc) == n
  {
    WithStockSameSkus(ps, loc, n);
    LocateSameSkus(ps, WithStock(ps, loc, n), sku);
  }

  /** One stock update at a known location. */
  lemma UpdateSingleAt(ps: seq<Product>, sku: string, q: int, isAdd: bool, loc: Location)
    requires loc == Locate(ps, sku) && !loc.Unknown?
    ensures ValidLocation(ps, loc)
    ensures UpdateSingle(ps, sku, q, isAdd) == Some(WithStock(ps, loc, Adjusted(StockAt(ps, loc), q, isAdd)))
  {
  }

  /** Writing back the former stock after a change gives the original list. */
  lemma WithStockRestore(ps: seq<Product>, loc: Location, n: int)
    requires ValidLocation(ps, loc)
    ensures WithStock(WithStock(ps, loc, n), loc, StockAt(ps, loc)) == ps
  {
    var back := WithStock(WithStock(ps, loc, n), loc, StockAt(ps, loc));
    match loc {
      case AtProduct(p) =>
        assert back[p] == ps[p];
      case AtVariant(p, v) =>
        var vs := ps[p].variants.list;
        assert vs[v := vs[v].(stock := n)][v := vs[v]] == vs;
        assert back[p] == ps[p];
    }
  }

  /** No product or parsed variant holds negative stock. */
  predicate NonNegative(ps: seq<Product>) {
    forall k :: 0 <= k < |ps| ==>
      ps[k].stock >= 0 &&
      (ps[k].variants.Parsed? ==> forall j :: 0 <= j < |ps[k].variants.list| ==> ps[k].variants.list[j].stock >= 0)
  }

  /** A single update keeps all stock non-negative. */
  lemma UpdateSingleKeepsNonNegative(ps: seq<Product>, sku: string, q: int, isAdd: bool)
    requires NonNegative(ps) && UpdateSingle(ps, sku, q, isAdd).Some?
    ensures NonNegative(UpdateSingle(ps, sku, q, isAdd).value)
  {
    var loc := Locate(ps, sku);
    var r := UpdateSingle(ps, sku, q, isAdd).value;
    if loc.AtVariant? {
      var vs := ps[loc.p].variants.list;
      var ws := r[loc.p].variants.list;
      assert forall j :: 0 <= j < |ws| ==> ws[j].stock >= 0 by {
        forall j | 0 <= j < |ws| ensures ws[j].stock >= 0 {
          if j != loc.v { assert ws[j] == vs[j]; }
        }
      }
    }
  }

  /** The combo deduction loop: each item deducts quantity × item.quantity from its
      SKU in turn; an unknown SKU is skipped. Defined on the last item so that it
      follows the loop. */
  function DeductAll(ps: seq<Product>, items: seq<ComboItem>, quantity: int): (r: seq<Product>)
    ensures SameSkus(ps, r)
    decreases |items|
  {
    if items == [] then ps
    else
      var prev := DeductAll(ps, items[..|items| - 1], quantity);
      var it := items[|items| - 1];
      match UpdateSingle(prev, it.sku, it.quantity * quantity, false)
      case None => prev
      case Some(next) =>
        WithStockSameSkus(prev, Locate(prev, it.sku), Adjusted(StockAt(prev, Locate(prev, it.sku)), it.quantity * quantity, false));
        SameSkusTrans(ps, prev, next);
        next
  }

  /** Lists that differ only in stock from a third differ only in stock from
      each other. */
  lemma SameSkusTrans(a: seq<Product>, b: seq<Product>, c: seq<Product>)
    requires SameSkus(a, b) && SameSkus(b, c)
    ensures SameSkus(a, c)
  {
  }

  /** What the combo deduction loop collects, one result per item. */
  function DeductResults(ps: seq<Product>, items: seq<ComboItem>, quantity: int): (r: seq<bool>)
    ensures |r| == |items|
    decreases |items|
  {
    if items == [] then []
    else
      var init := items[..|items| - 1];
      DeductResults(ps, init, quantity) + [!Locate(DeductAll(ps, init, quantity), items[|items| - 1].sku).Unknown?]
  }

  /** The k-th result says whether the k-th item's SKU was found in the
      products as the items before it left them. */
  lemma {:induction false} DeductResultsAt(ps: seq<Product>, items: seq<ComboItem>, quantity: int)
    ensures forall k :: 0 <= k < |items| ==>
      DeductResults(ps, items, quantity)[k] == !Locate(DeductAll(ps, items[..k], quantity), items[k].sku).Unknown?
  {
    if items != [] {
      var init := items[..|items| - 1];
      DeductResultsAt(ps, init, quantity);
      var r := DeductResults(ps, items, quantity);
      forall k | 0 <= k < |items|
        ensures r[k] == !Locate(DeductAll(ps, items[..k], quantity), items[k].sku).Unknown?
      {
        if k < |init| {
          assert init[..k] == items[..k];
          assert r[k] == DeductResults(ps, init, quantity)[k];
        } else {
          assert items[..k] == init;
        }
      }
    }
  }

  /** Deducting a combo keeps all stock non-negative. */
  lemma {:induction false} DeductAllKeepsNonNegative(ps: seq<Product>, items: seq<ComboItem>, quantity: int)
    requires NonNegative(ps)
    ensures NonNegative(DeductAll(ps, items, quantity))
  {
    if items != [] {
      DeductAllKeepsNonNegative(ps, items[..|items| - 1], quantity);
      var prev := DeductAll(ps, items[..|items| - 1], quantity);
      var it := items[|items| - 1];
      if UpdateSingle(prev, it.sku, it.quantity * quantity, false).Some? {
        UpdateSingleKeepsNonNegative(prev, it.sku, it.quantity * quantity, false);
      }
    }
  }

  /** `prisma.comboProduct.findUnique({ where: { sku } })`, as an index. */
  function ComboIndexBySku(cs: seq<Combo>, sku: string): (r: int)
    ensures -1 <= r < |cs|
    ensures r >= 0 ==> cs[r].sku == sku
    ensures forall k :: 0 <= k < |cs| && (r == -1 || k < r) ==> cs[k].sku != sku
  {
    if cs == [] then -1
    else if cs[0].sku == sku then 0
    else
      var r := ComboIndexBySku(cs[1..], sku);
      assert forall k :: 1 <= k < |cs| ==> cs[k] == cs[1..][k - 1];
      if r == -1 then -1 else r + 1
  }

  /** What an item contributes to a combo's available stock: nothing (`Free`),
      ⌊stock / quantity⌋ (`Bound`), or a JSON.parse failure that fails the handler. */
  datatype Limit = Fails | Free | Bound(n: int)

  function ItemLimit(ps: seq<Product>, it: ComboItem): Limit
    requires it.quantity > 0
  {
    var i := ProductIndexById(ps, it.productId);
    if i < 0 then Free
    else match ps[i].variants
      case NoVariants => Bound(ps[i].stock / it.quantity)
      case Unparseable => Fails
      case Parsed(vs) =>
        if 0 <= it.variantIndex < |vs| then Bound(vs[it.variantIndex].stock / it.quantity) else Free
  }

  /** `Math.min` of two limits, with `Free` as Infinity and `Fails` absorbing. */
  function MinLimit(a: Limit, b: Limit): Limit {
    if a.Fails? || b.Fails? then Fails
    else if a.Free? then b
    else if b.Free? then a
    else Bound(if a.n <= b.n then a.n else b.n)
  }

  predicate PositiveQuantities(items: seq<ComboItem>) {
    forall k :: 0 <= k < |items| ==> items[k].quantity > 0
  }

  /** The running minimum of the `forEach` over a combo's items. */
  function ComboLimit(ps: seq<Product>, items: seq<ComboItem>): (r: Limit)
    requires PositiveQuantities(items)
    ensures r.Fails? <==> exists k :: 0 <= k < |items| && ItemLimit(ps, items[k]).Fails?
    ensures r.Bound? ==> exists k :: 0 <= k < |items| && ItemLimit(ps, items[k]) == r
    decreases |items|
  {
    if items == [] then Free
    else
      var init := items[..|items| - 1];
      assert forall k :: 0 <= k < |init| ==> init[k] == items[k];
      MinLimit(ComboLimit(ps, init), ItemLimit(ps, items[|items| - 1]))
  }

  /** The combo stock is the least ⌊stock / quantity⌋ over the items that constrain
      it, and is reached by one of them; it is unconstrained only when no item is. */
  lemma {:induction false} ComboLimitIsMinimum(ps: seq<Product>, items: seq<ComboItem>)
    requires PositiveQuantities(items)
    requires forall k :: 0 <= k < |items| ==> !ItemLimit(ps, items[k]).Fails?
    ensures var l := ComboLimit(ps, items);
      !l.Fails? &&
      (l.Free? <==> forall k :: 0 <= k < |items| ==> ItemLimit(ps, items[k]).Free?) &&
      (l.Bound? ==>
        (forall k :: 0 <= k < |items| && ItemLimit(ps, items[k]).Bound? ==> l.n <= ItemLimit(ps, items[k]).n) &&
        (exists k :: 0 <= k < |items| && ItemLimit(ps, items[k]) == l))
  {
    var ls := Limits(ps, items);
    ComboLimitIsMinAll(ps, items);
    MinAllIsMinimum(ls);
    var l := ComboLimit(ps, items);
    if l.Bound? {
      var k :| 0 <= k < |ls| && ls[k] == l;
      assert ItemLimit(ps, items[k]) == l;
    }
  }

  /** Each item's limit, in item order. */
  function Limits(ps: seq<Product>, items: seq<ComboItem>): (r: seq<Limit>)
    requires PositiveQuantities(items)
    ensures |r| == |items| && forall k :: 0 <= k < |items| ==> r[k] == ItemLimit(ps, items[k])
  {
    seq(|items|, k requires 0 <= k < |items| => ItemLimit(ps, items[k]))
  }

  /** The least of a list of limits, Free for none. */
  function MinAll(ls: seq<Limit>): Limit {
    if ls == [] then Free else MinLimit(MinAll(ls[..|ls| - 1]), ls[|ls| - 1])
  }

  lemma {:induction false} ComboLimitIsMinAll(ps: seq<Product>, items: seq<ComboItem>)
    requires PositiveQuantities(items)
    ensures ComboLimit(ps, items) == MinAll(Limits(ps, items))
  {
    if items != [] {
      var init := items[..|items| - 1];
      ComboLimitIsMinAll(ps, init);
      assert Limits(ps, items)[..|items| - 1] == Limits(ps, init);
    }
  }

  /** Without failures, the least limit is below every bound, is one of the limits
      when bound, and is Free exactly when every limit is. */
  lemma {:induction false} MinAllIsMinimum(ls: seq<Limit>)
    requires forall k :: 0 <= k < |ls| ==> !ls[k].Fails?
    ensures var l := MinAll(ls);
      !l.Fails? &&
      (l.Free? <==> forall k :: 0 <= k < |ls| ==> ls[k].Free?) &&
      (l.Bound? ==>
        (forall k :: 0 <= k < |ls| && ls[k].Bound? ==> l.n <= ls[k].n) &&
        (exists k :: 0 <= k < |ls| && ls[k] == l))
  {
    if ls != [] {
      var n := |ls| - 1;
      var init := ls[..n];
      MinAllIsMinimum(init);
      var l0 := MinAll(init);
      var l := MinAll(ls);
      if l.Bound? {
        if l == l0 {
          var k0 :| 0 <= k0 < |init| && init[k0] == l0;
          assert ls[k0] == l;
        } else {
          assert ls[n] == l;
        }
      }
    }
  }

  /** A parse failure anywhere fails the whole computation. */
  lemma {:induction false} ComboLimitFails(ps: seq<Product>, items: seq<ComboItem>, k: nat)
    requires PositiveQuantities(items)
    requires k < |items| && ItemLimit(ps, items[k]).Fails?
    ensures ComboLimit(ps, items).Fails?
  {
    var init := items[..|items| - 1];
    if k < |items| - 1 {
      assert init[k] == items[k];
      ComboLimitFails(ps, init, k);
    }
  }

  /** `availableStock === Infinity ? 0 : availableStock` */
  function ShownStock(l: Limit): int
    requires !l.Fails?
  {
    if l.Free? then 0 else l.n
  }

  /** The stock an item that constrains a combo is measured against. */
  function ComponentStock(ps: seq<Product>, it: ComboItem): int
    requires it.quantity > 0 && ItemLimit(ps, it).Bound?
  {
    var i := ProductIndexById(ps, it.productId);
    if ps[i].variants.NoVariants? then ps[i].stock else ps[i].variants.list[it.variantIndex].stock
  }

  /** Assembling the shown number of combos never needs more of a constraining
      component than its stock holds. */
  lemma ShownStockIsAffordable(ps: seq<Product>, items: seq<ComboItem>, k: nat)
    requires PositiveQuantities(items)
    requires forall j :: 0 <= j < |items| ==> !ItemLimit(ps, items[j]).Fails?
    requires k < |items| && ItemLimit(ps, items[k]).Bound?
    ensures ComboLimit(ps, items).Bound?
    ensures ComboLimit(ps, items).n * items[k].quantity <= ComponentStock(ps, items[k])
  {
    ComboLimitBelowItem(ps, items, k);
    FloorTimes(ComboLimit(ps, items).n, ComponentStock(ps, items[k]), items[k].quantity);
  }

  lemma ComboLimitBelowItem(ps: seq<Product>, items: seq<ComboItem>, k: nat)
    requires PositiveQuantities(items)
    requires forall j :: 0 <= j < |items| ==> !ItemLimit(ps, items[j]).Fails?
    requires k < |items| && ItemLimit(ps, items[k]).Bound?
    ensures ComboLimit(ps, items).Bound? && ComboLimit(ps, items).n <= ComponentStock(ps, items[k]) / items[k].quantity
  {
    ComboLimitIsMinimum(ps, items);
  }

  lemma FloorTimes(n: int, s: int, q: int)
    requires q > 0 && n <= s / q
    ensures n * q <= s
  {
    MulMonotone(n, s / q, q);
  }

  lemma MulMonotone(a: int, b: int, q: int)
    requires a <= b && q > 0
    ensures a * q <= b * q
  {
  }

  /** One line of a purchase order, as the stock update reads it. */
  datatype PurchaseLine = PurchaseLine(productId: int, quantity: int, variantSku: string)

  /** The stock update of `purchases:create` for one line. */
  function Receive(ps: seq<Product>, line: PurchaseLine): (r: seq<Product>)
    ensures |r| == |ps|
  {
    var i := ProductIndexById(ps, line.productId);
    if i < 0 then ps
    else if line.variantSku != "" && !ps[i].variants.NoVariants? then
      match ps[i].variants
      case Unparseable => ps
      case Parsed(vs) =>
        var j := VariantIndexBySku(vs, line.variantSku);
        if j < 0 then ps else WithStock(ps, AtVariant(i, j), vs[j].stock + line.quantity)
    else WithStock(ps, AtProduct(i), ps[i].stock + line.quantity)
  }

  /** The purchase's lines applied in order. */
  function ReceiveAll(ps: seq<Product>, lines: seq<PurchaseLine>): (r: seq<Product>)
    ensures |r| == |ps|
    decreases |lines|
  {
    if lines == [] then ps else Receive(ReceiveAll(ps, lines[..|lines| - 1]), lines[|lines| - 1])
  }

  /** A received line adds its quantity to exactly one stock: the variant with its
      variantSku when it has one and the product has a parsed variant list, the
      product itself when there is no variantSku or no variant list; a variant SKU
      that is not in the list, or a list that does not parse, changes nothing. */
  lemma ReceiveTarget(ps: seq<Product>, line: PurchaseLine)
    requires ProductIndexById(ps, line.productId) >= 0
    ensures var i := ProductIndexById(ps, line.productId);
      var r := Receive(ps, line);
      (forall k :: 0 <= k < |ps| && k != i ==> r[k] == ps[k]) &&
      (line.variantSku == "" || ps[i].variants.NoVariants? ==>
        r[i] == ps[i].(stock := ps[i].stock + line.quantity)) &&
      (line.variantSku != "" && ps[i].variants.Parsed? ==>
        var vs := ps[i].variants.list;
        var j := VariantIndexBySku(vs, line.variantSku);
        if j < 0 then r[i] == ps[i]
        else r[i] == ps[i].(variants := Parsed(vs[j := vs[j].(stock := vs[j].stock + line.quantity)]))) &&
      (line.variantSku != "" && ps[i].variants.Unparseable? ==> r == ps)
  {
  }

  /** Receiving stock never lowers any stock. */
  lemma {:induction false} ReceiveAllNeverLowers(ps: seq<Product>, lines: seq<PurchaseLine>, k: nat)
    requires forall j :: 0 <= j < |lines| ==> lines[j].quantity >= 0
    requires k < |ps|
    ensures ReceiveAll(ps, lines)[k].stock >= ps[k].stock
  {
    if lines != [] {
      var init := lines[..|lines| - 1];
      assert forall j :: 0 <= j < |init| ==> init[j] == lines[j];
      ReceiveAllNeverLowers(ps, init, k);
    }
  }

  /** Outcome of `products:updateStock` on the database path. */
  datatype StockReply = Updated | ComboDeducted(deductResults: seq<bool>) | Failed

  /** `products:updateStock`: a combo SKU sold (isAdd false) deducts its components;
      anything else is a single update. */
  function UpdateStockSpec(ps: seq<Product>, cs: seq<Combo>, sku: string, q: int, isAdd: bool):
    (r: (StockReply, seq<Product>))
    ensures r.0.ComboDeducted? <==>
      !isAdd && ComboIndexBySku(cs, sku) >= 0 && cs[ComboIndexBySku(cs, sku)].items.Items?
    ensures r.0.ComboDeducted? ==> |r.0.deductResults| == |cs[ComboIndexBySku(cs, sku)].items.list|
    ensures r.0 == Failed <==>
      (!isAdd && ComboIndexBySku(cs, sku) >= 0 && cs[ComboIndexBySku(cs, sku)].items.CorruptItems?) ||
      ((isAdd || ComboIndexBySku(cs, sku) < 0) && Locate(ps, sku).Unknown?)
    ensures r.0 == Failed ==> r.1 == ps
    ensures SameSkus(ps, r.1)
  {
    var c := ComboIndexBySku(cs, sku);
    if c >= 0 && !isAdd then
      match cs[c].items
      case CorruptItems => (Failed, ps)
      case Items(list) => (ComboDeducted(DeductResults(ps, list, q)), DeductAll(ps, list, q))
    else
      var loc := Locate(ps, sku);
      match UpdateSingle(ps, sku, q, isAdd)
      case None => (Failed, ps)
      case Some(next) =>
        WithStockSameSkus(ps, loc, Adjusted(StockAt(ps, loc), q, isAdd));
        (Updated, next)
  }

  /** Returning a combo (isAdd true) is a plain update of the combo's own SKU, never a
      restock of its components. */
  lemma ComboReturnIsPlainUpdate(ps: seq<Product>, cs: seq<Combo>, sku: string, q: int)
    ensures UpdateStockSpec(ps, cs, sku, q, true).1 ==
      (if UpdateSingle(ps, sku, q, true).Some? then UpdateSingle(ps, sku, q, true).value else ps)
  {
  }

  /** The in-memory database behind the stock handlers. */
  class Store {
    var products: seq<Product>
    var combos: seq<Combo>

    constructor(products0: seq<Product>, combos0: seq<Combo>)
      ensures products == products0 && combos == combos0
    {
      products := products0;
      combos := combos0;
    }

    /** `updateSingleProductStock`: the product lookup, then the loop over products
        for a variant with that SKU, then the clamped write. */
    method UpdateSingleProductStock(sku: string, quantity: int, isAdd: bool) returns (ok: bool)
      modifies this`products
      ensures ok == UpdateSingle(old(products), sku, quantity, isAdd).Some?
      ensures products == if ok then UpdateSingle(old(products), sku, quantity, isAdd).value else old(products)
    {
      var loc: Location := Unknown;
      var i := ProductIndexBySku(products, sku);
      if i >= 0 {
        loc := AtProduct(i);
      } else {
        var k := 0;
        while k < |products|
          invariant 0 <= k <= |products|
          invariant VariantOwnerFrom(products, sku, k) == VariantOwnerFrom(products, sku, 0)
          invariant loc == Unknown
        {
          if HasVariant(products[k], sku) {
            loc := AtVariant(k, VariantIndexBySku(products[k].variants.list, sku));
            break;
          }
          k := k + 1;
        }
      }
      assert loc == Locate(products, sku);
      if loc == Unknown {
        return false;
      }
      products := WithStock(products, loc, Adjusted(StockAt(products, loc), quantity, isAdd));
      return true;
    }

    /** The combo branch of `products:updateStock`: one single update per item,
        collecting whether each item's SKU was found. */
    method DeductCombo(items: seq<ComboItem>, quantity: int) returns (results: seq<bool>)
      modifies this`products
      ensures products == DeductAll(old(products), items, quantity)
      ensures results == DeductResults(old(products), items, quantity)
      ensures |results| == |items| && forall k :: 0 <= k < |items| ==>
        results[k] == !Locate(DeductAll(old(products), items[..k], quantity), items[k].sku).Unknown?
    {
      results := [];
      var i := 0;
      while i < |items|
        invariant 0 <= i <= |items|
        invariant products == DeductAll(old(products), items[..i], quantity)
        invariant results == DeductResults(old(products), items[..i], quantity)
      {
        assert items[..i + 1][..i] == items[..i];
        var ok := UpdateSingleProductStock(items[i].sku, items[i].quantity * quantity, false);
        results := results + [ok];
        i := i + 1;
      }
      assert items[..i] == items;
      DeductResultsAt(old(products), items, quantity);
    }

    /** `products:updateStock` with a database. */
    method UpdateStock(sku: string, quantity: int, isAdd: bool) returns (reply: StockReply)
      modifies this`products
      ensures (reply, products) == UpdateStockSpec(old(products), combos, sku, quantity, isAdd)
    {
      var c := ComboIndexBySku(combos, sku);
      if c >= 0 && !isAdd {
        match combos[c].items
        case CorruptItems =>
          return Failed;
        case Items(list) =>
          var results := DeductCombo(list, quantity);
          return ComboDeducted(results);
      }
      var ok := UpdateSingleProductStock(sku, quantity, isAdd);
      reply := if ok then Updated else Failed;
    }

    /** The stock shown for one combo by `combos:getAll`: the `forEach` with a
        running minimum; a variants column that does not parse fails the handler. */
    method AvailableStock(items: seq<ComboItem>) returns (stock: Option<int>)
      requires PositiveQuantities(items)
      ensures stock.None? <==> ComboLimit(products, items).Fails?
      ensures stock.Some? ==> stock.value == ShownStock(ComboLimit(products, items))
    {
      var best: Limit := Free;
      var i := 0;
      while i < |items|
        invariant 0 <= i <= |items|
        invariant PositiveQuantities(items[..i])
        invariant best == ComboLimit(products, items[..i]) && !best.Fails?
      {
        assert items[..i + 1][..i] == items[..i];
        var l := ItemLimit(products, items[i]);
        if l.Fails? {
          ComboLimitFails(products, items, i);
          return None;
        }
        best := MinLimit(best, l);
        i := i + 1;
      }
      assert items[..i] == items;
      stock := Some(ShownStock(best));
    }

    /** `purchases:create`: every line's product must exist, else nothing changes;
        then the lines are received in order. */
    method CreatePurchase(lines: seq<PurchaseLine>) returns (ok: bool)
      modifies this`products
      ensures ok <==> AllKnown(old(products), lines)
      ensures products == if ok then ReceiveAll(old(products), lines) else old(products)
    {
      ok := CheckKnown(products, lines);
      if ok {
        ReceiveLines(lines);
      }
    }

    /** Receives the lines in order. */
    method ReceiveLines(lines: seq<PurchaseLine>)
      modifies this`products
      ensures products == ReceiveAll(old(products), lines)
    {
      var i := 0;
      while i < |lines|
        invariant 0 <= i <= |lines|
        invariant products == ReceiveAll(old(products), lines[..i])
      {
        assert lines[..i + 1][..i] == lines[..i];
        products := Receive(products, lines[i]);
        i := i + 1;
      }
      assert lines[..i] == lines;
    }
  }

  /** Every line names a product on the list. */
  predicate AllKnown(ps: seq<Product>, lines: seq<PurchaseLine>) {
    forall j :: 0 <= j < |lines| ==> ProductIndexById(ps, lines[j].productId) >= 0
  }

  /** Looks each line's product up in turn, stopping at the first unknown one. */
  method CheckKnown(ps: seq<Product>, lines: seq<PurchaseLine>) returns (ok: bool)
    ensures ok <==> AllKnown(ps, lines)
  {
    var i := 0;
    while i < |lines|
      invariant 0 <= i <= |lines|
      invariant forall j :: 0 <= j < i ==> ProductIndexById(ps, lines[j].productId) >= 0
    {
      if ProductIndexById(ps, lines[i].productId) < 0 {
        return false;
      }
      i := i + 1;
    }
    return true;
  }
}
