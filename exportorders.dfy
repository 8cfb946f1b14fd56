/** The export-orders page: the point-of-sale cart filled by scanning codes, its
    totals, and the manual export form, whose saves and deletions send stock
    requests to the inventory handlers. */
module ExportOrders {
  import opened Text
  import opened Lists
  import opened Catalog
  import Inventory

  datatype ExportItem = ExportItem(sku: string, productName: string, color: string, quantity: int, unitPrice: int)

  datatype ExportOrder = ExportOrder(
    id: int, exportDate: string, customer: string, status: string,
    totalAmount: int, notes: string, items: seq<ExportItem>)

  // ---------------------------------------------------------------------------
  // Finding a scanned code
  // ---------------------------------------------------------------------------

  /** `variants.find(v => v.sku?.toUpperCase() === code)`, as an index. */
  function VariantCodeIndex(vs: seq<Variant>, code: string): (r: int)
    ensures -1 <= r < |vs|
    ensures r >= 0 ==> Upper(vs[r].sku) == code
    ensures forall j :: 0 <= j < |vs| && (r == -1 || j < r) ==> Upper(vs[j].sku) != code
  {
    if vs == [] then -1
    else if Upper(vs[0].sku) == code then 0
    else
      var r := VariantCodeIndex(vs[1..], code);
      assert forall j :: 1 <= j < |vs| ==> vs[j] == vs[1..][j - 1];
      if r == -1 then -1 else r + 1
  }

  /** One of the product's variants carries the code as its SKU, ignoring case. A
      product whose variants do not parse has none (the page skips it). */
  predicate HasVariantCode(p: Product, code: string) {
    VariantCodeIndex(VariantsOrEmpty(p.variants), code) >= 0
  }

  /** The code is the product's own SKU or its barcode, ignoring case. */
  predicate ProductCode(p: Product, code: string) {
    Upper(p.sku) == code || Upper(p.barcode) == code
  }

  /** Index of the first product at or after `from` with a variant carrying the code. */
  function VariantOwner(ps: seq<Product>, code: string, from: nat): (r: int)
    requires from <= |ps|
    ensures r == -1 || (from <= r < |ps| && HasVariantCode(ps[r], code))
    ensures forall k :: from <= k < |ps| && (r == -1 || k < r) ==> !HasVariantCode(ps[k], code)
    decreases |ps| - from
  {
    if from == |ps| then -1
    else if HasVariantCode(ps[from], code) then from
    else VariantOwner(ps, code, from + 1)
  }

  /** `products.find(p => p.sku.toUpperCase() === code || p.barcode?.toUpperCase() === code)` */
  function ProductCodeIndex(ps: seq<Product>, code: string): (r: int)
    ensures -1 <= r < |ps|
    ensures r >= 0 ==> ProductCode(ps[r], code)
    ensures forall k :: 0 <= k < |ps| && (r == -1 || k < r) ==> !ProductCode(ps[k], code)
  {
    if ps == [] then -1
    else if ProductCode(ps[0], code) then 0
    else
      var r := ProductCodeIndex(ps[1..], code);
      assert forall k :: 1 <= k < |ps| ==> ps[k] == ps[1..][k - 1];
      if r == -1 then -1 else r + 1
  }

  /** What a scan found: the product, the variant if any, and the SKU, colour, unit
      price and available stock the cart line uses. */
  datatype Match = Match(
    product: nat, variant: Option<nat>, name: string, sku: string, color: string, price: int, stock: int)

  /** `variant.price || product.price || 0`: a zero price falls back to the product's. */
  function VariantPrice(v: Variant, p: Product): int {
    if v.price != 0 then v.price else p.price
  }

  /** The match of a variant found by its SKU. */
  predicate IsVariantMatch(ps: seq<Product>, code: string, m: Match) {
    m.product < |ps| && m.variant.Some? &&
    var vs := VariantsOrEmpty(ps[m.product].variants);
    var j := m.variant.value;
    j < |vs| && Upper(vs[j].sku) == code &&
    (forall i :: 0 <= i < j ==> Upper(vs[i].sku) != code) &&
    (forall k :: 0 <= k < m.product ==> !HasVariantCode(ps[k], code)) &&
    m.name == ps[m.product].name && m.sku == vs[j].sku && m.color == vs[j].color && m.stock == vs[j].stock &&
    m.price == VariantPrice(vs[j], ps[m.product])
  }

  /** The match of a product found by its own SKU or barcode. */
  predicate IsProductMatch(ps: seq<Product>, code: string, m: Match) {
    m.product < |ps| && m.variant.None? &&
    ProductCode(ps[m.product], code) &&
    (forall k :: 0 <= k < m.product ==> !ProductCode(ps[k], code)) &&
    m.name == ps[m.product].name && m.sku == ps[m.product].sku && m.color == "" && m.stock == ps[m.product].stock &&
    m.price == ps[m.product].price
  }

  /** The scan lookup: the first variant, in product order, whose SKU is the code;
      only when no variant anywhere carries it, the first product whose SKU or
      barcode is the code; nothing when neither exists. */
  /** No product carries `code` as a variant SKU, a SKU or a barcode. */
  predicate NoSuchCode(ps: seq<Product>, code: string) {
    forall k :: 0 <= k < |ps| ==> !HasVariantCode(ps[k], code) && !ProductCode(ps[k], code)
  }

  function FindByCode(ps: seq<Product>, code: string): (m: Option<Match>)
    ensures m.Some? && m.value.variant.Some? ==> IsVariantMatch(ps, code, m.value)
    ensures m.Some? && m.value.variant.None? ==>
      IsProductMatch(ps, code, m.value) && forall k :: 0 <= k < |ps| ==> !HasVariantCode(ps[k], code)
    ensures m.None? <==> NoSuchCode(ps, code)
  {
    var o := VariantOwner(ps, code, 0);
    if o >= 0 then
      var vs := VariantsOrEmpty(ps[o].variants);
      var j := VariantCodeIndex(vs, code);
      Some(Match(o, Some(j), ps[o].name, vs[j].sku, vs[j].color, VariantPrice(vs[j], ps[o]), vs[j].stock))
    else
      var k := ProductCodeIndex(ps, code);
      if k >= 0 then Some(Match(k, None, ps[k].name, ps[k].sku, "", ps[k].price, ps[k].stock))
      else None
  }

  /** A variant SKU wins over any product SKU or barcode, wherever they are. */
  lemma VariantCodeTakesPrecedence(ps: seq<Product>, code: string, k: nat)
    requires k < |ps| && HasVariantCode(ps[k], code)
    ensures FindByCode(ps, code).Some? && FindByCode(ps, code).value.variant.Some?
    ensures FindByCode(ps, code).value.product <= k
  {
  }

  /** The lookup as the page runs it: a loop over the products that stops at the
      first one with a matching variant, then a search by SKU or barcode. */
  method FindMatch(ps: seq<Product>, code: string) returns (m: Option<Match>)
    ensures m == FindByCode(ps, code)
  {
    m := None;
    var i := 0;
    while i < |ps|
      invariant 0 <= i <= |ps| && m.None?
      invariant VariantOwner(ps, code, 0) == VariantOwner(ps, code, i)
    {
      var vs := VariantsOrEmpty(ps[i].variants);
      var j := VariantCodeIndex(vs, code);
      if j >= 0 {
        m := Some(Match(i, Some(j), ps[i].name, vs[j].sku, vs[j].color, VariantPrice(vs[j], ps[i]), vs[j].stock));
        break;
      }
      i := i + 1;
    }
    if m.None? {
      var k := ProductCodeIndex(ps, code);
      if k >= 0 {
        m := Some(Match(k, None, ps[k].name, ps[k].sku, "", ps[k].price, ps[k].stock));
      }
    }
  }

  // ---------------------------------------------------------------------------
  // The cart
  // ---------------------------------------------------------------------------

  /** `posItems.findIndex(item => item.sku === sku)` */
  function CartIndexBySku(cart: seq<ExportItem>, sku: string): (r: int)
    ensures -1 <= r < |cart|
    ensures r >= 0 ==> cart[r].sku == sku
    ensures forall k :: 0 <= k < |cart| && (r == -1 || k < r) ==> cart[k].sku != sku
  {
    if cart == [] then -1
    else if cart[0].sku == sku then 0
    else
      var r := CartIndexBySku(cart[1..], sku);
      assert forall k :: 1 <= k < |cart| ==> cart[k] == cart[1..][k - 1];
      if r == -1 then -1 else r + 1
  }

  datatype ScanOutcome = Ignored | NotFound | OutOfStock | AtLimit | Incremented | Added

  /** The cart step of `handleScan` once the code has been found: a sold-out match
      is refused, a SKU already in the cart gains one unit unless it has reached
      the available stock, and a new SKU is put first with quantity 1. */
  function AddMatch(cart: seq<ExportItem>, m: Match): (r: (seq<ExportItem>, ScanOutcome))
    ensures r.1 == OutOfStock <==> m.stock <= 0
    ensures r.1 == Added <==> m.stock > 0 && forall k :: 0 <= k < |cart| ==> cart[k].sku != m.sku
    ensures r.1 == AtLimit <==>
      m.stock > 0 && CartIndexBySku(cart, m.sku) >= 0 && cart[CartIndexBySku(cart, m.sku)].quantity >= m.stock
    ensures r.1 in {OutOfStock, AtLimit, Incremented, Added}
    ensures r.1 == Added ==> r.0 == [ExportItem(m.sku, m.name, m.color, 1, m.price)] + cart
    ensures r.1 == Incremented ==> |r.0| == |cart|
    ensures r.1 != Incremented && r.1 != Added ==> r.0 == cart
  {
    if m.stock <= 0 then (cart, OutOfStock)
    else
      var i := CartIndexBySku(cart, m.sku);
      if i >= 0 then
        if cart[i].quantity >= m.stock then (cart, AtLimit)
        else (cart[i := cart[i].(quantity := cart[i].quantity + 1)], Incremented)
      else ([ExportItem(m.sku, m.name, m.color, 1, m.price)] + cart, Added)
  }

  /** `handleScan(code)`: the new cart and what happened. */
  function ScanCart(cart: seq<ExportItem>, ps: seq<Product>, code: string): (r: (seq<ExportItem>, ScanOutcome))
    ensures r.1 == Ignored <==> Trim(code) == ""
    ensures r.1 == NotFound <==> Trim(code) != "" && NoSuchCode(ps, Upper(Trim(code)))
    ensures r.1 != Incremented && r.1 != Added ==> r.0 == cart
    ensures |cart| <= |r.0| <= |cart| + 1
  {
    var trimmed := Upper(Trim(code));
    if trimmed == "" then (cart, Ignored)
    else
      var found := FindByCode(ps, trimmed);
      if found.None? then (cart, NotFound) else AddMatch(cart, found.value)
  }

  /** An empty code, an unknown code, a sold-out match and a line already at the
      available stock all leave the cart as it was. */
  lemma ScanRefusalsKeepCart(cart: seq<ExportItem>, ps: seq<Product>, code: string)
    ensures ScanCart(cart, ps, code).1 != Incremented && ScanCart(cart, ps, code).1 != Added ==>
      ScanCart(cart, ps, code).0 == cart
  {
    var t := Upper(Trim(code));
    if t != "" {
      var found := FindByCode(ps, t);
      if found.Some? {
        AddMatchStaysWithinStock(cart, found.value);
      }
    }
  }

  /** A code is reported as not found exactly when it is not blank and no variant,
      product SKU or barcode carries it. */
  lemma ScanNotFoundIff(cart: seq<ExportItem>, ps: seq<Product>, code: string)
    ensures var t := Upper(Trim(code));
      ScanCart(cart, ps, code).1 == NotFound <==>
        t != "" && NoSuchCode(ps, t)
  {
    var t := Upper(Trim(code));
    if t != "" {
      var found := FindByCode(ps, t);
      if found.Some? {
        AddMatchFinds(cart, found.value);
      }
    }
  }

  lemma AddMatchFinds(cart: seq<ExportItem>, m: Match)
    ensures AddMatch(cart, m).1 != NotFound && AddMatch(cart, m).1 != Ignored
  {
  }

  /** An accepted scan adds one unit to exactly one line, and that line stays within
      the stock available for the scanned item: a rescan raises the existing line
      of the same SKU, a new SKU goes to the front with quantity 1. */
  lemma AddMatchStaysWithinStock(cart: seq<ExportItem>, m: Match)
    ensures var (c, o) := AddMatch(cart, m);
      var i := CartIndexBySku(cart, m.sku);
      (o == Incremented ==>
        0 <= i && |c| == |cart| && c[i].sku == m.sku &&
        c[i].quantity == cart[i].quantity + 1 <= m.stock &&
        forall k :: 0 <= k < |cart| && k != i ==> c[k] == cart[k]) &&
      (o == Added ==>
        i == -1 && c[1..] == cart && c[0].sku == m.sku && c[0].quantity == 1 <= m.stock) &&
      (o != Incremented && o != Added ==> c == cart)
  {
    var (c, o) := AddMatch(cart, m);
    if o == Added {
      assert c[1..] == cart;
    }
  }

  /** `posItems.reduce((sum, item) => sum + item.quantity, 0)` */
  function TotalQuantity(cart: seq<ExportItem>): int {
    if cart == [] then 0 else cart[0].quantity + TotalQuantity(cart[1..])
  }

  function LineAmount(it: ExportItem): int {
    it.quantity * it.unitPrice
  }

  /** `posItems.reduce((sum, item) => sum + item.quantity * item.unitPrice, 0)` */
  function TotalAmount(cart: seq<ExportItem>): int {
    if cart == [] then 0 else LineAmount(cart[0]) + TotalAmount(cart[1..])
  }

  /** Replacing one line changes each total by that line's difference. */
  lemma {:induction false} TotalsOfUpdate(cart: seq<ExportItem>, i: nat, x: ExportItem)
    requires i < |cart|
    ensures TotalQuantity(cart[i := x]) == TotalQuantity(cart) - cart[i].quantity + x.quantity
    ensures TotalAmount(cart[i := x]) == TotalAmount(cart) - LineAmount(cart[i]) + LineAmount(x)
  {
    if i > 0 {
      TotalsOfUpdate(cart[1..], i - 1, x);
      assert cart[i := x][1..] == cart[1..][i - 1 := x];
    }
  }

  /** An accepted scan adds exactly one unit and that line's unit price to the totals. */
  lemma AddMatchAddsOneUnit(cart: seq<ExportItem>, m: Match)
    requires AddMatch(cart, m).1 == Incremented || AddMatch(cart, m).1 == Added
    ensures TotalQuantity(AddMatch(cart, m).0) == TotalQuantity(cart) + 1
    ensures AddMatch(cart, m).1 == Added ==> TotalAmount(AddMatch(cart, m).0) == TotalAmount(cart) + m.price
    ensures AddMatch(cart, m).1 == Incremented ==>
      var i := CartIndexBySku(cart, m.sku);
      0 <= i && TotalAmount(AddMatch(cart, m).0) == TotalAmount(cart) + cart[i].unitPrice
  {
    var c := AddMatch(cart, m).0;
    var i := CartIndexBySku(cart, m.sku);
    if i >= 0 {
      var x := cart[i].(quantity := cart[i].quantity + 1);
      assert c == cart[i := x];
      TotalsOfUpdate(cart, i, x);
      LineAmountStep(cart[i]);
    } else {
      var x := ExportItem(m.sku, m.name, m.color, 1, m.price);
      assert c == [x] + cart;
      assert ([x] + cart)[1..] == cart;
      LineAmountStep(x.(quantity := 0));
    }
  }

  /** One more unit adds one unit price to the line's amount. */
  lemma LineAmountStep(it: ExportItem)
    ensures LineAmount(it.(quantity := it.quantity + 1)) == LineAmount(it) + it.unitPrice
  {
    assert (it.quantity + 1) * it.unitPrice == it.quantity * it.unitPrice + it.unitPrice;
  }

  /** `posItems.filter(item => item.sku !== sku)` */
  function RemoveSku(cart: seq<ExportItem>, sku: string): (r: seq<ExportItem>)
    ensures |r| <= |cart|
    ensures forall x :: x in r <==> x in cart && x.sku != sku
  {
    if cart == [] then []
    else (if cart[0].sku == sku then [] else [cart[0]]) + RemoveSku(cart[1..], sku)
  }

  function SkuIsNot(sku: string): ExportItem -> bool {
    (it: ExportItem) => it.sku != sku
  }

  /** The cart without a SKU is the library filter of the cart: the other lines,
      in order and with their repetitions. */
  lemma {:induction false} RemoveSkuIsFilter(cart: seq<ExportItem>, sku: string)
    ensures RemoveSku(cart, sku) == Filter(cart, SkuIsNot(sku))
  {
    if cart != [] {
      RemoveSkuIsFilter(cart[1..], sku);
      FilterFront(cart, SkuIsNot(sku));
    }
  }

  /** The quantity held in the lines with this SKU. */
  function SkuQuantity(cart: seq<ExportItem>, sku: string): int {
    if cart == [] then 0
    else (if cart[0].sku == sku then cart[0].quantity else 0) + SkuQuantity(cart[1..], sku)
  }

  /** Removing a SKU takes exactly that SKU's units out of the cart total. */
  lemma {:induction false} RemoveSkuTotal(cart: seq<ExportItem>, sku: string)
    ensures TotalQuantity(RemoveSku(cart, sku)) + SkuQuantity(cart, sku) == TotalQuantity(cart)
  {
    if cart != [] {
      RemoveSkuTotal(cart[1..], sku);
      var head := if cart[0].sku == sku then [] else [cart[0]];
      TotalOfConcat(head, RemoveSku(cart[1..], sku));
    }
  }

  lemma {:induction false} TotalOfConcat(a: seq<ExportItem>, b: seq<ExportItem>)
    ensures TotalQuantity(a + b) == TotalQuantity(a) + TotalQuantity(b)
  {
    if a != [] {
      TotalOfConcat(a[1..], b);
      assert (a + b)[1..] == a[1..] + b;
    } else {
      assert a + b == b;
    }
  }

  /** Removing a SKU that no line carries leaves the cart as it was, in order. */
  lemma {:induction false} RemoveAbsentSku(cart: seq<ExportItem>, sku: string)
    requires CartIndexBySku(cart, sku) == -1
    ensures RemoveSku(cart, sku) == cart
  {
    if cart != [] {
      assert CartIndexBySku(cart[1..], sku) == -1;
      RemoveAbsentSku(cart[1..], sku);
    }
  }

  /** Removing the SKU that a scan has just added undoes the scan. */
  lemma RemoveUndoesAdd(cart: seq<ExportItem>, m: Match)
    requires AddMatch(cart, m).1 == Added
    ensures RemoveSku(AddMatch(cart, m).0, m.sku) == cart
  {
    AddMatchStaysWithinStock(cart, m);
    var c := AddMatch(cart, m).0;
    RemoveAbsentSku(cart, m.sku);
    assert c == [c[0]] + cart;
  }

  /** The point-of-sale cart. The page replaces `posItems` through its setter. */
  class Pos {
    var cart: seq<ExportItem>

    constructor()
      ensures cart == []
    {
      cart := [];
    }

    /** `handleScan(code)` */
    method Scan(ps: seq<Product>, code: string) returns (outcome: ScanOutcome)
      modifies this
      ensures (cart, outcome) == ScanCart(old(cart), ps, code)
    {
      var trimmed := Upper(Trim(code));
      if trimmed == "" {
        return Ignored;
      }
      var found := FindMatch(ps, trimmed);
      if found.None? {
        return NotFound;
      }
      outcome := Add(found.value);
    }

    /** The cart step of `handleScan`: the existing line is raised in place. */
    method Add(m: Match) returns (outcome: ScanOutcome)
      modifies this
      ensures (cart, outcome) == AddMatch(old(cart), m)
    {
      if m.stock <= 0 {
        return OutOfStock;
      }
      var existing := CartIndexBySku(cart, m.sku);
      if existing >= 0 {
        if cart[existing].quantity >= m.stock {
          return AtLimit;
        }
        cart := cart[existing := cart[existing].(quantity := cart[existing].quantity + 1)];
        outcome := Incremented;
      } else {
        cart := [ExportItem(m.sku, m.name, m.color, 1, m.price)] + cart;
        outcome := Added;
      }
    }

    /** `handleRemovePOSItem(sku)` */
    method Remove(sku: string)
      modifies this
      ensures cart == RemoveSku(old(cart), sku)
    {
      cart := RemoveSku(cart, sku);
    }
  }

  // ---------------------------------------------------------------------------
  // The manual export form
  // ---------------------------------------------------------------------------

  /** The validated form. The quantity input's minimum is 1. */
  datatype ExportForm = ExportForm(
    color: string, quantity: int, unitPrice: int,
    customer: string, exportDate: string, status: string, notes: string)

  datatype SubmitResult =
    | NoProduct
    | NoColor
    | InsufficientStock(available: int)
    | Saved(exports: seq<ExportOrder>, requests: seq<Inventory.StockRequest>)

  /** The SKU, colour and available stock the form exports: those of the variant
      with the chosen colour, or the product's own when there is no such variant. */
  function Chosen(p: Product, variants: seq<Variant>, color: string): (string, string, int) {
    var j := VariantIndexByColor(variants, color);
    if variants != [] && j >= 0 then (variants[j].sku, variants[j].color, variants[j].stock)
    else (p.sku, "", p.stock)
  }

  function Ids(exports: seq<ExportOrder>): (ids: seq<int>)
    ensures |ids| == |exports| && forall k :: 0 <= k < |exports| ==> ids[k] == exports[k].id
  {
    seq(|exports|, k requires 0 <= k < |exports| => exports[k].id)
  }

  /** `handleSubmit`: a product must be chosen, and a colour when the product has
      variants; the quantity may not exceed the available stock. A new export takes
      the next id and goes first, with one deduction request; an edit replaces the
      record with the same id and asks to put the old line back, then deduct the
      new one. */
  function Submit(
    exports: seq<ExportOrder>, editing: Option<ExportOrder>,
    product: Option<Product>, variants: seq<Variant>, form: ExportForm): (r: SubmitResult)
    requires editing.Some? ==> editing.value.items != []
    ensures r.Saved? ==> product.Some? && (variants != [] ==> form.color != "")
    ensures r.Saved? ==> form.quantity <= Chosen(product.value, variants, form.color).2
    ensures r.InsufficientStock? ==> form.quantity > r.available
    ensures r.Saved? && editing.None? ==>
      |r.exports| == |exports| + 1 && r.exports[1..] == exports &&
      (forall k :: 0 <= k < |exports| ==> exports[k].id < r.exports[0].id) &&
      r.exports[0].items == [ExportItem(Chosen(product.value, variants, form.color).0, product.value.name,
                                        Chosen(product.value, variants, form.color).1, form.quantity, form.unitPrice)] &&
      r.requests == [Inventory.StockRequest(r.exports[0].items[0].sku, form.quantity, false)]
    ensures r.Saved? && editing.Some? ==>
      |r.exports| == |exports| &&
      (forall k :: 0 <= k < |exports| && exports[k].id != editing.value.id ==> r.exports[k] == exports[k]) &&
      (forall k :: 0 <= k < |exports| && exports[k].id == editing.value.id ==>
        r.exports[k].id == editing.value.id &&
        r.exports[k].items == [ExportItem(Chosen(product.value, variants, form.color).0, product.value.name,
                                          Chosen(product.value, variants, form.color).1, form.quantity, form.unitPrice)]) &&
      r.requests == [
        Inventory.StockRequest(editing.value.items[0].sku, editing.value.items[0].quantity, true),
        Inventory.StockRequest(Chosen(product.value, variants, form.color).0, form.quantity, false)]
  {
    if product.None? then NoProduct
    else if variants != [] && form.color == "" then NoColor
    else
      var p := product.value;
      var (sku, color, available) := Chosen(p, variants, form.color);
      if form.quantity > available then InsufficientStock(available)
      else
        var total := form.quantity * form.unitPrice;
        var item := ExportItem(sku, p.name, color, form.quantity, form.unitPrice);
        if editing.Some? then
          var e := editing.value;
          var updated := e.(customer := form.customer, exportDate := form.exportDate, status := form.status,
                            notes := form.notes, totalAmount := total, items := [item]);
          var list := seq(|exports|, k requires 0 <= k < |exports| => if exports[k].id == e.id then updated else exports[k]);
          var prev := e.items[0];
          Saved(list, [Inventory.StockRequest(prev.sku, prev.quantity, true), Inventory.StockRequest(sku, form.quantity, false)])
        else
          var created := ExportOrder(NextId(Ids(exports)), form.exportDate, form.customer, form.status, total, form.notes, [item]);
          Saved([created] + exports, [Inventory.StockRequest(sku, form.quantity, false)])
  }

  /** `handleDelete(record)`: every export with the record's id goes, the rest stay
      in order, and the record's line is asked back into stock. */
  function Delete(exports: seq<ExportOrder>, record: ExportOrder): (r: (seq<ExportOrder>, Inventory.StockRequest))
    requires record.items != []
    ensures forall e :: e in r.0 <==> e in exports && e.id != record.id
    ensures r.0 == Filter(exports, IdIsNot(record.id))
    ensures r.1 == Inventory.StockRequest(record.items[0].sku, record.items[0].quantity, true)
  {
    WithoutIdIsFilter(exports, record.id);
    (WithoutId(exports, record.id), Inventory.StockRequest(record.items[0].sku, record.items[0].quantity, true))
  }

  /** `exports.filter(e => e.id !== id)` */
  function WithoutId(exports: seq<ExportOrder>, id: int): (r: seq<ExportOrder>)
    ensures |r| <= |exports|
    ensures forall e :: e in r <==> e in exports && e.id != id
  {
    if exports == [] then []
    else (if exports[0].id == id then [] else [exports[0]]) + WithoutId(exports[1..], id)
  }

  function IdIsNot(id: int): ExportOrder -> bool {
    (e: ExportOrder) => e.id != id
  }

  /** The exports without an id are the library filter of the exports: the
      others, in order and with their repetitions. */
  lemma {:induction false} WithoutIdIsFilter(exports: seq<ExportOrder>, id: int)
    ensures WithoutId(exports, id) == Filter(exports, IdIsNot(id))
  {
    if exports != [] {
      WithoutIdIsFilter(exports[1..], id);
      FilterFront(exports, IdIsNot(id));
    }
  }

  /** Deleting an export just created gives back the former export list. */
  lemma {:induction false} DeleteUndoesCreate(
    exports: seq<ExportOrder>, product: Option<Product>, variants: seq<Variant>, form: ExportForm)
    requires Submit(exports, None, product, variants, form).Saved?
    ensures var r := Submit(exports, None, product, variants, form);
      Delete(r.exports, r.exports[0]).0 == exports
  {
    var r := Submit(exports, None, product, variants, form);
    var created := r.exports[0];
    WithoutAbsentId(exports, created.id);
    assert r.exports == [created] + exports;
  }

  lemma {:induction false} WithoutAbsentId(exports: seq<ExportOrder>, id: int)
    requires forall k :: 0 <= k < |exports| ==> exports[k].id < id
    ensures WithoutId(exports, id) == exports
  {
    if exports != [] {
      WithoutAbsentId(exports[1..], id);
    }
  }

  /** Creating an export and then deleting it leaves the inventory as it was: the
      deduction the save asks for is exactly undone by the restore the deletion
      asks for, whenever the stock held the exported quantity. */
  lemma CreateThenDeleteRestoresStock(
    exports: seq<ExportOrder>, product: Option<Product>, variants: seq<Variant>, form: ExportForm,
    ps: seq<Product>)
    requires form.quantity >= 1
    requires Submit(exports, None, product, variants, form).Saved?
    requires var req := Submit(exports, None, product, variants, form).requests[0];
      !Inventory.Locate(ps, req.sku).Unknown? &&
      req.quantity <= Inventory.StockAt(ps, Inventory.Locate(ps, req.sku))
    ensures var r := Submit(exports, None, product, variants, form);
      var deduct := r.requests[0];
      var restore := Delete(r.exports, r.exports[0]).1;
      var mid := Inventory.UpdateSingle(ps, deduct.sku, deduct.quantity, deduct.isAdd);
      mid.Some? && Inventory.UpdateSingle(mid.value, restore.sku, restore.quantity, restore.isAdd) == Some(ps)
  {
    var r := Submit(exports, None, product, variants, form);
    var deduct := r.requests[0];
    assert Delete(r.exports, r.exports[0]).1 == Inventory.StockRequest(deduct.sku, deduct.quantity, true);
    Inventory.DeductThenRestoreList(ps, deduct.sku, deduct.quantity);
  }
}
