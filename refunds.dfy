/** The refunds page: refund records imported from cancelled-order sheets,
    or entered by hand item by item, and handed back to stock by scanning the
    parcel's order number or tracking id. */
module Refunds {
  import opened Text
  import opened Lists
  import opened Grouping
  import opened OrderSheet
  import opened TrackingNotes
  import Catalog
  import Numbering

  const Completed: string := "completed"
  const Pending: string := "pending"

  /** A refund record; an absent order number or code is "". */
  datatype Refund = Refund(
    id: int,
    customerName: string,
    refundCode: string,
    orderNumber: string,
    refundReason: string,
    refundDate: string,
    status: string,
    notes: string,
    items: ItemsField,
    totalAmount: int)

  function Ids(rs: seq<Refund>): (ids: seq<int>)
    ensures |ids| == |rs| && forall k :: 0 <= k < |rs| ==> ids[k] == rs[k].id
  {
    seq(|rs|, k requires 0 <= k < |rs| => rs[k].id)
  }

  // ---------------------------------------------------------------- scan

  /** The scanned code is the refund's order number or the tracking id read
      from its notes. */
  predicate Matches(r: Refund, code: string) {
    r.orderNumber == code || TrackingOf(r.notes) == code
  }

  /** `refunds.find(...)`, as an index, or -1. */
  function FindRefund(rs: seq<Refund>, code: string): (i: int)
    ensures -1 <= i < |rs|
    ensures i >= 0 ==> Matches(rs[i], code)
    ensures forall k :: 0 <= k < |rs| && (i == -1 || k < i) ==> !Matches(rs[k], code)
  {
    if rs == [] then -1
    else if Matches(rs[0], code) then 0
    else
      var i := FindRefund(rs[1..], code);
      assert forall k :: 1 <= k < |rs| ==> rs[k] == rs[1..][k - 1];
      if i < 0 then -1 else i + 1
  }

  /** `orderNumber || refundCode`, shown in the scan message. */
  function LabelOf(r: Refund): string {
    if r.orderNumber != "" then r.orderNumber else r.refundCode
  }

  datatype ScanOutcome = Ignored | NotFound(code: string) | Returned(name: string)

  /** Every refund with the found refund's id becomes completed. */
  function SetCompleted(rs: seq<Refund>, id: int): (out: seq<Refund>)
    ensures |out| == |rs|
    ensures forall k :: 0 <= k < |rs| ==>
      out[k] == if rs[k].id == id then rs[k].(status := Completed) else rs[k]
  {
    seq(|rs|, k requires 0 <= k < |rs| => if rs[k].id == id then rs[k].(status := Completed) else rs[k])
  }

  /** The scan handler on the refund list. A refund that is already completed
      is found and completed again. */
  function ScanRefunds(rs: seq<Refund>, code: string): (r: (seq<Refund>, ScanOutcome))
    ensures r.1 == Ignored <==> Trim(code) == ""
    ensures r.1.NotFound? <==> Trim(code) != "" && forall x :: x in rs ==> !Matches(x, Trim(code))
    ensures !r.1.Returned? ==> r.0 == rs
    ensures |r.0| == |rs|
  {
    var trimmed := Trim(code);
    if trimmed == "" then (rs, Ignored)
    else
      var i := FindRefund(rs, trimmed);
      if i < 0 then (rs, NotFound(trimmed))
      else
        assert rs[i] in rs;
        (SetCompleted(rs, rs[i].id), Returned(LabelOf(rs[i])))
  }

  /** A blank code is ignored; a code finds nothing exactly when no refund
      matches it; only a found refund changes the list. */
  lemma ScanNotFoundIff(rs: seq<Refund>, code: string)
    ensures var (out, o) := ScanRefunds(rs, code);
      (o == Ignored <==> Trim(code) == "") &&
      (o.NotFound? <==> Trim(code) != "" && forall r :: r in rs ==> !Matches(r, Trim(code))) &&
      (!o.Returned? ==> out == rs)
  {
    var i := FindRefund(rs, Trim(code));
    if Trim(code) != "" && i >= 0 {
      assert rs[i] in rs;
    }
  }

  /** A scan completes the first refund the code matches, by order number or
      by tracking id, and every refund sharing its id; no other refund and no
      other field changes. */
  lemma ScanCompletesFirstMatch(rs: seq<Refund>, code: string)
    requires ScanRefunds(rs, code).1.Returned?
    ensures var i := FindRefund(rs, Trim(code));
      var out := ScanRefunds(rs, code).0;
      0 <= i < |rs| && Matches(rs[i], Trim(code)) &&
      (forall k :: 0 <= k < i ==> !Matches(rs[k], Trim(code))) &&
      |out| == |rs| && out[i].status == Completed &&
      forall k :: 0 <= k < |rs| ==>
        out[k].(status := rs[k].status) == rs[k] &&
        (rs[k].id != rs[i].id ==> out[k] == rs[k])
  {
  }

  /** The search reads only the order numbers and the notes. */
  lemma {:induction false} FindSameKeys(a: seq<Refund>, b: seq<Refund>, code: string)
    requires |a| == |b|
    requires forall k :: 0 <= k < |a| ==> a[k].notes == b[k].notes && a[k].orderNumber == b[k].orderNumber
    ensures FindRefund(a, code) == FindRefund(b, code)
  {
    if a != [] {
      FindSameKeys(a[1..], b[1..], code);
    }
  }

  /** Scanning the same code twice is scanning it once: the second scan finds
      the same refund, reports it the same way and changes nothing more. */
  lemma ScanTwiceIsOnce(rs: seq<Refund>, code: string)
    ensures var (out, o) := ScanRefunds(rs, code);
      ScanRefunds(out, code) == (out, o)
  {
    var t := Trim(code);
    if t != "" {
      var i := FindRefund(rs, t);
      if i >= 0 {
        RefindCompleted(rs, t, i);
        var out := SetCompleted(rs, rs[i].id);
        SetCompletedTwice(rs, rs[i].id);
        assert ScanRefunds(out, code) == (SetCompleted(out, out[i].id), Returned(LabelOf(out[i])));
      }
    }
  }

  /** Completing the same id twice is completing it once. */
  lemma SetCompletedTwice(rs: seq<Refund>, id: int)
    ensures SetCompleted(SetCompleted(rs, id), id) == SetCompleted(rs, id)
  {
    var once := SetCompleted(rs, id);
    assert forall k :: 0 <= k < |rs| ==> once[k].id == rs[k].id;
  }

  /** After completing the found refund, the search finds it again, with the
      same id and label. */
  lemma RefindCompleted(rs: seq<Refund>, t: string, i: int)
    requires 0 <= i < |rs| && i == FindRefund(rs, t)
    ensures var out := SetCompleted(rs, rs[i].id);
      FindRefund(out, t) == i && out[i].id == rs[i].id && LabelOf(out[i]) == LabelOf(rs[i])
  {
    var out := SetCompleted(rs, rs[i].id);
    forall k | 0 <= k < |out|
      ensures out[k].notes == rs[k].notes && out[k].orderNumber == rs[k].orderNumber
    {
    }
    FindSameKeys(rs, out, t);
  }

  // ---------------------------------------------------------------- import

  /** Rows of either sheet are kept when they have an order id and a product
      name; no description row is recognised here. */
  function KeptRows(rows: seq<Row>): (kept: seq<Row>)
    ensures |kept| <= |rows|
    ensures forall r :: r in kept <==> r in rows && HasOrderAndProduct(r)
  {
    if rows == [] then []
    else
      var init := KeptRows(rows[..|rows| - 1]);
      assert rows == rows[..|rows| - 1] + [rows[|rows| - 1]];
      if HasOrderAndProduct(rows[|rows| - 1]) then init + [rows[|rows| - 1]] else init
  }

  /** The order map: kept rows grouped by order id, in first-seen order. */
  function Orders(rows: seq<Row>): seq<Group<string, Row>> {
    GroupBy(KeptRows(rows), OrderId)
  }

  function CustomerName(src: Source): string {
    match src
    case TikTok => "Khách TikTok"
    case Shopee => "Khách Shopee"
  }

  /** The notes text, "Shipping: p | Tracking: t | SL: q". */
  function RefundNotes(first: Row, items: seq<Item>): string {
    "Shipping: " + OrNA(first.shippingProvider) + " | Tracking: " + OrNA(first.trackingId) + " |" + QuantityText(items)
  }

  function QuantityText(items: seq<Item>): string {
    " SL: " + IntToString(TotalQuantity(items))
  }

  /** The refund created for one order; its date is the first row's time
      formatted as a day, or today when that cell is empty. */
  function NewRefund(b: Batch, g: Group<string, Row>, id: int): Refund {
    var first := FirstRow(g.rows);
    var items := ItemsOf(g.rows);
    Refund(id, CustomerName(b.src), g.key, g.key, CancelReason(b.src, first),
           if first.cancelledTime != "" then b.day(first.cancelledTime) else b.today,
           Pending, RefundNotes(first, items), Items(items), RowsAmount(g.rows))
  }

  function Maker(b: Batch): (Group<string, Row>, int) -> Refund {
    (g: Group<string, Row>, id: int) => NewRefund(b, g, id)
  }

  /** Every order becomes a refund: there is no duplicate or tracking check. */
  function EveryOrder(): Group<string, Row> -> bool {
    (g: Group<string, Row>) => true
  }

  /** The refunds an import builds and hands to the bulk save. */
  datatype ImportResult = WrongFormat | NothingFound | Created(refunds: seq<Refund>)

  function ImportBatch(rs: seq<Refund>, hasTikTokColumn: bool, hasShopeeColumn: bool,
                       rows: seq<Row>, today: string, day: string -> string): (r: ImportResult)
    ensures r == WrongFormat <==> DetectSource(hasTikTokColumn, hasShopeeColumn).None?
    ensures r == NothingFound <==> DetectSource(hasTikTokColumn, hasShopeeColumn).Some? && Orders(rows) == []
    ensures r.Created? ==>
      |r.refunds| == |Orders(rows)| &&
      forall a, k :: 0 <= a < |rs| && 0 <= k < |r.refunds| ==> rs[a].id < r.refunds[k].id
  {
    match DetectSource(hasTikTokColumn, hasShopeeColumn)
    case None => WrongFormat
    case Some(src) =>
      var b := Batch(src, today, day);
      ImportIsEveryOrder(rs, Orders(rows), b);
      if BatchOf(rs, Orders(rows), b).Created? then
        ImportedIdsAreNew(rs, Orders(rows), b);
        BatchOf(rs, Orders(rows), b)
      else BatchOf(rs, Orders(rows), b)
  }

  function BatchOf(rs: seq<Refund>, groups: seq<Group<string, Row>>, b: Batch): ImportResult {
    var created := Numbering.Build(groups, EveryOrder(), Maker(b), NextId(Ids(rs))).0;
    if created == [] then NothingFound else Created(created)
  }

  /** One refund per order, in order, with ids counting up from the next id;
      nothing is created exactly when there is no order. */
  lemma ImportIsEveryOrder(rs: seq<Refund>, groups: seq<Group<string, Row>>, b: Batch)
    ensures var r := BatchOf(rs, groups, b);
      var next := NextId(Ids(rs));
      (r == NothingFound <==> groups == []) &&
      (r.Created? ==>
        |r.refunds| == |groups| &&
        forall k :: 0 <= k < |groups| ==> r.refunds[k] == NewRefund(b, groups[k], next + k))
  {
    var next := NextId(Ids(rs));
    Numbering.BuildAllSelected(groups, EveryOrder(), Maker(b), next);
    Numbering.BuildIsSelected(groups, EveryOrder(), Maker(b), next);
    var created := Numbering.Build(groups, EveryOrder(), Maker(b), next).0;
    forall k | 0 <= k < |groups|
      ensures created[k] == NewRefund(b, groups[k], next + k)
    {
      assert created[k] == Maker(b)(groups[k], next + k);
    }
  }

  /** The imported ids are above every existing id. */
  lemma ImportedIdsAreNew(rs: seq<Refund>, groups: seq<Group<string, Row>>, b: Batch)
    requires BatchOf(rs, groups, b).Created?
    ensures var created := BatchOf(rs, groups, b).refunds;
      forall a, k :: 0 <= a < |rs| && 0 <= k < |created| ==> rs[a].id < created[k].id
  {
    ImportIsEveryOrder(rs, groups, b);
    var next := NextId(Ids(rs));
    assert forall a :: 0 <= a < |rs| ==> Ids(rs)[a] == rs[a].id;
  }

  /** Every imported refund is pending, numbered and coded by its order id,
      lists its order's rows as items in row order, totals its rows' amounts,
      which is the sum of its items' totals, and notes their total quantity. */
  lemma ImportedRefund(b: Batch, g: Group<string, Row>, id: int)
    ensures var r := NewRefund(b, g, id);
      r.id == id && r.status == Pending && r.status != Completed &&
      r.orderNumber == g.key && r.refundCode == g.key &&
      r.items == Items(ItemsOf(g.rows)) && |r.items.list| == |g.rows| &&
      r.totalAmount == RowsAmount(g.rows) && r.totalAmount == ItemsTotal(r.items.list) &&
      r.notes == RefundNotes(FirstRow(g.rows), r.items.list) &&
      TotalQuantity(r.items.list) == RowsQuantity(g.rows)
  {
    ItemsTotalsMatchRows(g.rows);
  }

  /** The tracking id read back from an imported refund's notes is the first
      row's tracking id trimmed, or "N/A" when the row had none, when that id
      has no '|' and the shipping provider's name does not contain
      "Tracking: ". */
  lemma ImportedTrackingReadsBack(b: Batch, g: Group<string, Row>, id: int)
    requires forall k :: 0 <= k < |OrNA(FirstRow(g.rows).trackingId)| ==> OrNA(FirstRow(g.rows).trackingId)[k] != '|'
    requires !Contains(OrNA(FirstRow(g.rows).shippingProvider), Label)
    ensures TrackingOf(NewRefund(b, g, id).notes) == Trim(OrNA(FirstRow(g.rows).trackingId))
  {
    var first := FirstRow(g.rows);
    TrackingRoundTrip(OrNA(first.shippingProvider), OrNA(first.trackingId), QuantityText(ItemsOf(g.rows)));
  }

  /** The orders are the distinct order ids of the kept rows, each holding
      exactly the kept rows with its id, in row order. */
  lemma OrdersAreGroupedRows(rows: seq<Row>)
    ensures var groups := Orders(rows);
      Keys(groups) == Distinct(RowKeys(KeptRows(rows), OrderId)) &&
      forall j :: 0 <= j < |groups| ==> groups[j].rows == RowsWithKey(KeptRows(rows), OrderId, groups[j].key)
  {
    GroupKeysAreDistinctKeys(KeptRows(rows), OrderId);
    GroupRowsAreRowsWithKey(KeptRows(rows), OrderId);
  }

  /** The `forEach` over the sheet rows that fills the order map. */
  method GroupRefundOrders(rows: seq<Row>) returns (groups: seq<Group<string, Row>>)
    ensures groups == Orders(rows)
  {
    groups := [];
    var i := 0;
    while i < |rows|
      invariant 0 <= i <= |rows|
      invariant groups == Orders(rows[..i])
    {
      var row := rows[i];
      OrdersStep(rows, i);
      if HasOrderAndProduct(row) {
        groups := AddRow(groups, row.orderId, row);
      }
      i := i + 1;
    }
    assert rows[..i] == rows;
  }

  /** One more row adds it to its order's group when it is kept. */
  lemma OrdersStep(rows: seq<Row>, i: nat)
    requires i < |rows|
    ensures Orders(rows[..i + 1]) ==
      if HasOrderAndProduct(rows[i]) then AddRow(Orders(rows[..i]), rows[i].orderId, rows[i]) else Orders(rows[..i])
  {
    var p := rows[..i + 1];
    assert p[..i] == rows[..i];
    if HasOrderAndProduct(rows[i]) {
      var k := KeptRows(p);
      assert k == KeptRows(rows[..i]) + [rows[i]];
      assert k[..|k| - 1] == KeptRows(rows[..i]);
    }
  }

  // ---------------------------------------------------------------- filter

  datatype StatusFilter = All | PendingFilter | CompletedFilter | Overdue

  /** Whether the list shows a refund under the filter; `daysPassed(date)` is
      the number of whole days from the refund's date to now. */
  predicate Shown(f: StatusFilter, r: Refund, daysPassed: string -> int) {
    match f
    case All => true
    case PendingFilter => r.status != Completed
    case CompletedFilter => r.status == Completed
    case Overdue => daysPassed(r.refundDate) > 3 && r.status != Completed
  }

  function Visible(rs: seq<Refund>, f: StatusFilter, daysPassed: string -> int): seq<Refund> {
    Filter(rs, (r: Refund) => Shown(f, r, daysPassed))
  }

  /** 'all' shows every refund. */
  lemma AllShowsEverything(rs: seq<Refund>, daysPassed: string -> int)
    ensures Visible(rs, All, daysPassed) == rs
  {
    FilterKeepsAll(rs, (r: Refund) => Shown(All, r, daysPassed));
  }

  /** 'pending' and 'completed' split the refunds between them. */
  lemma PendingCompletedPartition(rs: seq<Refund>, daysPassed: string -> int)
    ensures multiset(Visible(rs, PendingFilter, daysPassed)) + multiset(Visible(rs, CompletedFilter, daysPassed))
      == multiset(rs)
  {
    FilterSplit(rs, (r: Refund) => Shown(PendingFilter, r, daysPassed),
                (r: Refund) => Shown(CompletedFilter, r, daysPassed));
  }

  /** The overdue refunds are the pending ones more than three days old. */
  lemma OverdueArePending(rs: seq<Refund>, daysPassed: string -> int)
    ensures multiset(Visible(rs, Overdue, daysPassed)) <= multiset(Visible(rs, PendingFilter, daysPassed))
    ensures forall r :: r in Visible(rs, Overdue, daysPassed) <==>
      r in rs && daysPassed(r.refundDate) > 3 && r.status != Completed
  {
    FilterStricter(rs, (r: Refund) => Shown(Overdue, r, daysPassed),
                   (r: Refund) => Shown(PendingFilter, r, daysPassed));
  }

  // ---------------------------------------------------------------- items

  /** An item line of the refund form. */
  datatype RefundItem = RefundItem(
    productId: int,
    productName: string,
    color: string,
    variantSku: string,
    quantity: int,
    unitPrice: int,
    total: int)

  /** The line `handleAddItem` builds, or None when it refuses. Product id,
      quantity and unit price must be set (0 stands for an empty field) and
      the product must exist; a colour that names one of the selected
      product's variants takes that variant's name and SKU. */
  function NewItem(products: seq<Catalog.Product>, variants: seq<Catalog.Variant>,
                   productId: int, color: string, quantity: int, unitPrice: int): (r: Option<RefundItem>)
    ensures r.None? <==>
      productId == 0 || quantity == 0 || unitPrice == 0 || Catalog.ProductIndexById(products, productId) < 0
    ensures r.Some? ==>
      var p := products[Catalog.ProductIndexById(products, productId)];
      var j := Catalog.VariantIndexByColor(variants, color);
      r.value.productId == productId && p.id == productId &&
      r.value.quantity == quantity && r.value.unitPrice == unitPrice &&
      r.value.total == quantity * unitPrice &&
      (color != "" && j >= 0 ==>
        r.value.variantSku == variants[j].sku && variants[j].color == color &&
        r.value.productName == p.name + " - " + color) &&
      (color == "" || j < 0 ==> r.value.variantSku == p.sku && r.value.productName == p.name)
  {
    if productId == 0 || quantity == 0 || unitPrice == 0 then None
    else
      var pi := Catalog.ProductIndexById(products, productId);
      if pi < 0 then None
      else
        var p := products[pi];
        var j := if color != "" && |variants| > 0 then Catalog.VariantIndexByColor(variants, color) else -1;
        var name := if j >= 0 then p.name + " - " + color else p.name;
        var sku := if j >= 0 then variants[j].sku else p.sku;
        Some(RefundItem(productId, name, color, sku, quantity, unitPrice, quantity * unitPrice))
  }

  /** A line's total. */
  function LineTotal(it: RefundItem): int {
    it.total
  }

  /** `refundItems.reduce((sum, item) => sum + item.total, 0)`. */
  function ItemsSum(items: seq<RefundItem>): int {
    SumBy(items, LineTotal)
  }

  /** The total a submit saves, or None when the item list is empty and the
      submit is refused. */
  function SubmitTotal(items: seq<RefundItem>): (r: Option<int>)
    ensures r.None? <==> items == []
  {
    if items == [] then None else Some(ItemsSum(items))
  }

  // ---------------------------------------------------------------- page

  /** The page's refund list, the form's item lines and the variants of the
      product selected in the form. */
  class RefundsPage {
    var refunds: seq<Refund>
    var items: seq<RefundItem>
    var selectedVariants: seq<Catalog.Variant>

    constructor(loaded: seq<Refund>)
      ensures refunds == loaded && items == [] && selectedVariants == []
    {
      refunds := loaded;
      items := [];
      selectedVariants := [];
    }

    /** `handleScan`. */
    method Scan(code: string) returns (outcome: ScanOutcome)
      modifies this
      ensures (refunds, outcome) == ScanRefunds(old(refunds), code)
      ensures items == old(items) && selectedVariants == old(selectedVariants)
    {
      var trimmed := Trim(code);
      if trimmed == "" {
        return Ignored;
      }
      var i := FindRefund(refunds, trimmed);
      if i < 0 {
        return NotFound(trimmed);
      }
      var found := refunds[i];
      refunds := SetCompleted(refunds, found.id);
      outcome := Returned(LabelOf(found));
    }

    /** `handleImportExcel` after the sheet has been read: the refunds to
        save. */
    method Import(hasTikTokColumn: bool, hasShopeeColumn: bool, rows: seq<Row>,
                  today: string, day: string -> string) returns (result: ImportResult)
      ensures result == ImportBatch(refunds, hasTikTokColumn, hasShopeeColumn, rows, today, day)
    {
      var src := DetectSource(hasTikTokColumn, hasShopeeColumn);
      if src.None? {
        return WrongFormat;
      }
      var groups := GroupRefundOrders(rows);
      var created, skipped := Numbering.BuildRecords(groups, EveryOrder(), Maker(Batch(src.value, today, day)),
                                                     NextId(Ids(refunds)));
      if |created| == 0 {
        result := NothingFound;
      } else {
        result := Created(created);
      }
    }

    /** `handleProductSelect`: the selected product's variants, or none when
        its variant text is absent or does not parse; an unknown product
        changes nothing. */
    method SelectProduct(products: seq<Catalog.Product>, productId: int)
      modifies this
      ensures var pi := Catalog.ProductIndexById(products, productId);
        selectedVariants == if pi < 0 then old(selectedVariants) else Catalog.VariantsOrEmpty(products[pi].variants)
      ensures refunds == old(refunds) && items == old(items)
    {
      var pi := Catalog.ProductIndexById(products, productId);
      if pi >= 0 {
        selectedVariants := Catalog.VariantsOrEmpty(products[pi].variants);
      }
    }

    /** `handleAddItem`: appends the new line and clears the selected
        variants, or changes nothing when it refuses. */
    method AddItem(products: seq<Catalog.Product>, productId: int, color: string, quantity: int, unitPrice: int)
      returns (added: bool)
      modifies this
      ensures var r := NewItem(products, old(selectedVariants), productId, color, quantity, unitPrice);
        added == r.Some? &&
        items == (if added then old(items) + [r.value] else old(items)) &&
        selectedVariants == (if added then [] else old(selectedVariants))
      ensures added ==> ItemsSum(items) == ItemsSum(old(items)) + quantity * unitPrice
      ensures refunds == old(refunds)
    {
      var r := NewItem(products, selectedVariants, productId, color, quantity, unitPrice);
      added := r.Some?;
      if added {
        SumBySnoc(items, r.value, LineTotal);
        items := items + [r.value];
        selectedVariants := [];
      }
    }

    /** `handleRemoveItem`: drops line i. */
    method RemoveItem(i: int)
      modifies this
      ensures items == RemoveAt(old(items), i)
      ensures 0 <= i < |old(items)| ==> ItemsSum(items) == ItemsSum(old(items)) - old(items)[i].total
      ensures refunds == old(refunds) && selectedVariants == old(selectedVariants)
    {
      if 0 <= i < |items| {
        SumByRemoveAt(items, i, LineTotal);
      }
      items := RemoveAt(items, i);
    }
  }
}
