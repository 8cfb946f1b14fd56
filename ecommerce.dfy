/** The marketplace export page: cancelled-order sheets from TikTok or Shopee
    are imported as export records, one per new order, and scanning a parcel's
    tracking id hands the matching record to the carrier and deducts its
    items from stock. */
module Ecommerce {
  import opened Text
  import opened Lists
  import opened Grouping
  import opened OrderSheet
  import opened TrackingNotes
  import Inventory
  import Numbering

  const Completed: string := "completed"
  const Pending: string := "pending"

  /** An export record; an absent order number or code is "". */
  datatype Record = Record(
    id: int,
    customerName: string,
    code: string,
    orderNumber: string,
    reason: string,
    date: string,
    status: string,
    notes: string,
    items: ItemsField,
    totalAmount: int)

  function Ids(rs: seq<Record>): (ids: seq<int>)
    ensures |ids| == |rs| && forall k :: 0 <= k < |rs| ==> ids[k] == rs[k].id
  {
    seq(|rs|, k requires 0 <= k < |rs| => rs[k].id)
  }

  // ---------------------------------------------------------------- import

  /** A row the import keeps: on TikTok sheets the description row is
      dropped, and on both a row without order id or product name. */
  predicate Kept(src: Source, r: Row) {
    !(src == TikTok && IsDescriptionRow(r)) && HasOrderAndProduct(r)
  }

  function KeptRows(src: Source, rows: seq<Row>): (kept: seq<Row>)
    ensures |kept| <= |rows|
    ensures forall r :: r in kept ==> r in rows && Kept(src, r)
  {
    if rows == [] then []
    else
      var init := KeptRows(src, rows[..|rows| - 1]);
      if Kept(src, rows[|rows| - 1]) then init + [rows[|rows| - 1]] else init
  }

  /** The order map: kept rows grouped by order id, in first-seen order. */
  function Orders(src: Source, rows: seq<Row>): seq<Group<string, Row>> {
    GroupBy(KeptRows(src, rows), OrderId)
  }

  /** `ecommerceExports.some(...)`: the order id is already an order number or
      a code of an existing record. */
  predicate IsDuplicate(existing: seq<Record>, orderId: string) {
    exists k :: 0 <= k < |existing| && (existing[k].orderNumber == orderId || existing[k].code == orderId)
  }

  /** The first row's tracking id, trimmed, is present and is neither "N/A"
      nor "—". */
  predicate HasTracking(trackingId: string) {
    var t := Trim(trackingId);
    t != "" && t != "N/A" && t != "—"
  }

  /** An order that becomes a record: it is not already imported, and its
      first row has a tracking id. */
  function Qualifies(existing: seq<Record>): Group<string, Row> -> bool {
    (g: Group<string, Row>) => !IsDuplicate(existing, g.key) && HasTracking(FirstRow(g.rows).trackingId)
  }

  function CustomerName(src: Source): string {
    match src
    case TikTok => "TikTok"
    case Shopee => "Shopee"
  }

  /** The notes text: shipping provider, tracking id, number of item lines and
      total quantity, as "Shipping: p | Tracking: t | n SKU | SL: q". */
  function ImportNotes(first: Row, items: seq<Item>): string {
    "Shipping: " + OrNA(first.shippingProvider) + " | Tracking: " + OrNA(first.trackingId) + " |" + CountsText(items)
  }

  function CountsText(items: seq<Item>): string {
    " " + IntToString(|items|) + " SKU | SL: " + IntToString(TotalQuantity(items))
  }

  /** The record created for one order. The date is the first row's cancelled
      time formatted as a day, or today when that cell is empty. */
  function NewRecord(b: Batch, g: Group<string, Row>, id: int): Record {
    var first := FirstRow(g.rows);
    var items := ItemsOf(g.rows);
    Record(id, CustomerName(b.src), g.key, g.key, CancelReason(b.src, first),
           if first.cancelledTime != "" then b.day(first.cancelledTime) else b.today,
           Pending, ImportNotes(first, items), Items(items), RowsAmount(g.rows))
  }

  function Maker(b: Batch): (Group<string, Row>, int) -> Record {
    (g: Group<string, Row>, id: int) => NewRecord(b, g, id)
  }

  /** Every imported record is pending, its order number and code are its order
      id, which no existing record has, its item lines are its order's rows in
      row order, its total is the sum of its items' totals, and its notes count
      the item lines and their total quantity. */
  lemma ImportedRecord(existing: seq<Record>, b: Batch, g: Group<string, Row>, id: int)
    requires Qualifies(existing)(g)
    ensures var r := NewRecord(b, g, id);
      r.id == id && r.status == Pending && r.status != Completed &&
      r.orderNumber == g.key && r.code == g.key && !IsDuplicate(existing, r.orderNumber) &&
      r.items == Items(ItemsOf(g.rows)) && |r.items.list| == |g.rows| &&
      r.totalAmount == ItemsTotal(r.items.list) &&
      r.notes == ImportNotes(FirstRow(g.rows), r.items.list) &&
      TotalQuantity(r.items.list) == RowsQuantity(g.rows)
  {
    ItemsTotalsMatchRows(g.rows);
  }

  /** The imported record can be found again by scanning its tracking id: the
      tracking read back from its notes is the first row's tracking id
      trimmed, when that id has no '|' and the shipping provider's name does
      not contain "Tracking: ". */
  lemma ImportedTrackingReadsBack(b: Batch, g: Group<string, Row>, id: int)
    requires HasTracking(FirstRow(g.rows).trackingId)
    requires forall k :: 0 <= k < |FirstRow(g.rows).trackingId| ==> FirstRow(g.rows).trackingId[k] != '|'
    requires !Contains(OrNA(FirstRow(g.rows).shippingProvider), Label)
    ensures TrackingOf(NewRecord(b, g, id).notes) == Trim(FirstRow(g.rows).trackingId)
  {
    var first := FirstRow(g.rows);
    assert OrNA(first.trackingId) == first.trackingId;
    TrackingRoundTrip(OrNA(first.shippingProvider), first.trackingId, CountsText(ItemsOf(g.rows)));
  }

  datatype ImportResult = WrongFormat | NothingImported(skipped: nat) | Imported(count: nat, skipped: nat)

  /** The whole import on the record list. */
  function ImportInto(records: seq<Record>, hasTikTokColumn: bool, hasShopeeColumn: bool,
                      rows: seq<Row>, today: string, day: string -> string): (seq<Record>, ImportResult)
  {
    match DetectSource(hasTikTokColumn, hasShopeeColumn)
    case None => (records, WrongFormat)
    case Some(src) => ImportOrders(records, Orders(src, rows), Batch(src, today, day))
  }

  /** The orders of a recognised sheet on the record list: the new records
      are placed before the old ones, and the list is kept when nothing is new. */
  function ImportOrders(records: seq<Record>, groups: seq<Group<string, Row>>, b: Batch): (r: (seq<Record>, ImportResult))
    ensures !r.1.WrongFormat?
    ensures r.1.NothingImported? ==> r.0 == records && r.1.skipped == |groups|
    ensures r.1.Imported? ==>
      r.1.count > 0 && r.1.count + r.1.skipped == |groups| &&
      |r.0| == r.1.count + |records| && r.0[r.1.count..] == records
  {
    var res := Numbering.Build(groups, Qualifies(records), Maker(b), NextId(Ids(records)));
    if res.0 == [] then (records, NothingImported(res.1))
    else (res.0 + records, Imported(|res.0|, res.1))
  }

  /** An order qualifies exactly when no existing record has its id as order
      number or code and its first row has a tracking id. */
  lemma SelectedIffQualifies(records: seq<Record>, groups: seq<Group<string, Row>>, g: Group<string, Row>)
    ensures g in Numbering.Selected(groups, Qualifies(records)) <==>
      g in groups && !IsDuplicate(records, g.key) && HasTracking(FirstRow(g.rows).trackingId)
  {
    Numbering.SelectedIff(groups, Qualifies(records), g);
  }

  /** The import makes one record per qualifying order, in order, numbered
      from the next id and placed before the old records; the other orders
      are counted as skipped, and the list is kept when no order qualifies. */
  lemma ImportIsQualifyingOrders(records: seq<Record>, groups: seq<Group<string, Row>>, b: Batch)
    ensures var r := ImportOrders(records, groups, b);
      var sel := Numbering.Selected(groups, Qualifies(records));
      var next := NextId(Ids(records));
      (sel == [] ==> r.0 == records && r.1 == NothingImported(|groups|)) &&
      (sel != [] ==>
        r.1 == Imported(|sel|, |groups| - |sel|) && |r.0| == |sel| + |records| &&
        r.0[|sel|..] == records &&
        forall k :: 0 <= k < |sel| ==> r.0[k] == NewRecord(b, sel[k], next + k))
  {
    if Numbering.Selected(groups, Qualifies(records)) == [] {
      ImportNothing(records, groups, b);
    } else {
      ImportSome(records, groups, b);
    }
  }

  lemma ImportNothing(records: seq<Record>, groups: seq<Group<string, Row>>, b: Batch)
    requires Numbering.Selected(groups, Qualifies(records)) == []
    ensures var r := ImportOrders(records, groups, b);
      r.0 == records && r.1 == NothingImported(|groups|)
  {
    var next := NextId(Ids(records));
    Numbering.BuildIsSelected(groups, Qualifies(records), Maker(b), next);
    var res := Numbering.Build(groups, Qualifies(records), Maker(b), next);
    ImportOrdersParts(records, groups, b, res);
    assert res.0 == [];
  }

  lemma ImportSome(records: seq<Record>, groups: seq<Group<string, Row>>, b: Batch)
    requires Numbering.Selected(groups, Qualifies(records)) != []
    ensures var r := ImportOrders(records, groups, b);
      var sel := Numbering.Selected(groups, Qualifies(records));
      var next := NextId(Ids(records));
      r.1 == Imported(|sel|, |groups| - |sel|) && |r.0| == |sel| + |records| &&
      r.0[|sel|..] == records &&
      forall k :: 0 <= k < |sel| ==> r.0[k] == NewRecord(b, sel[k], next + k)
  {
    var next := NextId(Ids(records));
    var sel := Numbering.Selected(groups, Qualifies(records));
    Numbering.BuildIsSelected(groups, Qualifies(records), Maker(b), next);
    var res := Numbering.Build(groups, Qualifies(records), Maker(b), next);
    ImportOrdersParts(records, groups, b, res);
    assert res.0 != [];
    PrependNumbered(res.0, records, sel, b, next);
  }

  /** ImportOrders in terms of the records built and the orders skipped. */
  lemma ImportOrdersParts(records: seq<Record>, groups: seq<Group<string, Row>>, b: Batch, res: (seq<Record>, nat))
    requires res == Numbering.Build(groups, Qualifies(records), Maker(b), NextId(Ids(records)))
    ensures var r := ImportOrders(records, groups, b);
      r.0 == (if res.0 == [] then records else res.0 + records) &&
      r.1 == (if res.0 == [] then NothingImported(res.1) else Imported(|res.0|, res.1))
  {
  }

  /** Records built by Maker, placed before the old records. */
  lemma PrependNumbered(made: seq<Record>, records: seq<Record>, sel: seq<Group<string, Row>>, b: Batch, next: int)
    requires |made| == |sel| && forall k :: 0 <= k < |sel| ==> made[k] == Maker(b)(sel[k], next + k)
    ensures var out := made + records;
      |out| == |sel| + |records| && out[|sel|..] == records &&
      forall k :: 0 <= k < |sel| ==> out[k] == NewRecord(b, sel[k], next + k)
  {
    var out := made + records;
    assert out[|sel|..] == records;
    forall k | 0 <= k < |sel|
      ensures out[k] == NewRecord(b, sel[k], next + k)
    {
      assert out[k] == made[k];
    }
  }

  /** New records take ids above every existing id, counting up, so ids that
      were unique stay unique. */
  lemma ImportKeepsIdsUnique(records: seq<Record>, groups: seq<Group<string, Row>>, b: Batch)
    requires forall a, b :: 0 <= a < b < |records| ==> records[a].id != records[b].id
    ensures var out := ImportOrders(records, groups, b).0;
      forall a, b :: 0 <= a < b < |out| ==> out[a].id != out[b].id
  {
    var mk := Maker(b);
    var next := NextId(Ids(records));
    var res := Numbering.Build(groups, Qualifies(records), mk, next);
    var sel := Numbering.Selected(groups, Qualifies(records));
    Numbering.BuildIsSelected(groups, Qualifies(records), mk, next);
    forall k | 0 <= k < |res.0|
      ensures res.0[k].id == next + k
    {
      assert res.0[k] == mk(sel[k], next + k);
    }
    NewIdsAbove(records, res.0, next);
  }

  /** Records numbered from the next id, put before unique-id records, keep
      the ids unique. */
  lemma NewIdsAbove(records: seq<Record>, created: seq<Record>, next: int)
    requires forall a, b :: 0 <= a < b < |records| ==> records[a].id != records[b].id
    requires next == NextId(Ids(records))
    requires forall k :: 0 <= k < |created| ==> created[k].id == next + k
    ensures var out := created + records;
      forall a, b :: 0 <= a < b < |out| ==> out[a].id != out[b].id
  {
    var out := created + records;
    var n := |created|;
    forall a, b | 0 <= a < b < |out|
      ensures out[a].id != out[b].id
    {
      if b < n {
        assert out[a] == created[a] && out[b] == created[b];
      } else if a < n {
        assert out[a] == created[a] && out[b] == records[b - n];
        assert Ids(records)[b - n] == records[b - n].id;
      } else {
        assert out[a] == records[a - n] && out[b] == records[b - n];
      }
    }
  }

  /** The orders are the distinct order ids of the kept rows in first-seen
      order, each holding exactly the kept rows with its id, in row order. */
  lemma OrdersAreGroupedRows(src: Source, rows: seq<Row>)
    ensures var groups := Orders(src, rows);
      Keys(groups) == Distinct(RowKeys(KeptRows(src, rows), OrderId)) &&
      forall j :: 0 <= j < |groups| ==> groups[j].rows == RowsWithKey(KeptRows(src, rows), OrderId, groups[j].key)
  {
    GroupKeysAreDistinctKeys(KeptRows(src, rows), OrderId);
    GroupRowsAreRowsWithKey(KeptRows(src, rows), OrderId);
  }

  /** The `forEach` over the sheet rows that fills the order map. */
  method GroupOrders(src: Source, rows: seq<Row>) returns (groups: seq<Group<string, Row>>)
    ensures groups == Orders(src, rows)
  {
    groups := [];
    var i := 0;
    while i < |rows|
      invariant 0 <= i <= |rows|
      invariant groups == Orders(src, rows[..i])
    {
      var row := rows[i];
      OrdersStep(src, rows, i);
      if Kept(src, row) {
        var j := GroupIndex(groups, row.orderId);
        if j < 0 {
          groups := groups + [Group(row.orderId, [row])];
        } else {
          groups := groups[j := Group(row.orderId, groups[j].rows + [row])];
        }
      }
      i := i + 1;
    }
    assert rows[..i] == rows;
  }

  /** One more row adds it to its order's group when it is kept. */
  lemma OrdersStep(src: Source, rows: seq<Row>, i: nat)
    requires i < |rows|
    ensures Orders(src, rows[..i + 1]) ==
      if Kept(src, rows[i]) then AddRow(Orders(src, rows[..i]), rows[i].orderId, rows[i]) else Orders(src, rows[..i])
  {
    var p := rows[..i + 1];
    assert p[..i] == rows[..i];
    if Kept(src, rows[i]) {
      var k := KeptRows(src, p);
      assert k == KeptRows(src, rows[..i]) + [rows[i]];
      assert k[..|k| - 1] == KeptRows(src, rows[..i]);
    }
  }

  // ---------------------------------------------------------------- scan

  /** The tracking id read back from each record's notes. */
  function Trackings(records: seq<Record>): (ts: seq<string>)
    ensures |ts| == |records| && forall k :: 0 <= k < |records| ==> ts[k] == TrackingOf(records[k].notes)
  {
    seq(|records|, k requires 0 <= k < |records| => TrackingOf(records[k].notes))
  }

  /** `find`: the first record whose notes' tracking id equals the code. */
  function FindByTracking(records: seq<Record>, code: string): (i: int)
    ensures -1 <= i < |records|
    ensures i >= 0 ==> TrackingOf(records[i].notes) == code
    ensures forall k :: 0 <= k < |records| && (i == -1 || k < i) ==> TrackingOf(records[k].notes) != code
  {
    var ts := Trackings(records);
    if code in ts then
      var i := FirstIndex(ts, code);
      assert forall k :: 0 <= k < i ==> ts[k] == ts[..i][k];
      i
    else -1
  }

  /** The deduction made for each item that has a variant SKU. */
  function Deductions(items: seq<Item>): (ds: seq<Inventory.StockRequest>)
    ensures |ds| <= |items|
    ensures forall d :: d in ds ==> !d.isAdd && d.sku != ""
  {
    if items == [] then []
    else
      var init := Deductions(items[..|items| - 1]);
      var it := items[|items| - 1];
      if it.variantSku != "" then init + [Inventory.StockRequest(it.variantSku, it.quantity, false)] else init
  }

  /** The deductions are the items with a variant SKU, one each, with the
      item's SKU and quantity, in item order. */
  lemma {:induction false} DeductionsAreSkuItems(items: seq<Item>)
    ensures |Deductions(items)| == |SkuItems(items)|
    ensures forall k :: 0 <= k < |Deductions(items)| ==>
      Deductions(items)[k] == Inventory.StockRequest(SkuItems(items)[k].variantSku, SkuItems(items)[k].quantity, false)
  {
    if items != [] {
      DeductionsAreSkuItems(items[..|items| - 1]);
    }
  }

  /** The items with a variant SKU, in order. */
  function SkuItems(items: seq<Item>): (r: seq<Item>)
    ensures forall it :: it in r ==> it in items && it.variantSku != ""
    ensures forall it :: it in items && it.variantSku != "" ==> it in r
  {
    if items == [] then []
    else
      var init := SkuItems(items[..|items| - 1]);
      assert forall it :: it in items ==> it in items[..|items| - 1] || it == items[|items| - 1];
      var it := items[|items| - 1];
      if it.variantSku != "" then init + [it] else init
  }

  /** `orderNumber || ecommerceExportCode`, shown in the scan messages. */
  function LabelOf(r: Record): string {
    if r.orderNumber != "" then r.orderNumber else r.code
  }

  datatype ScanOutcome =
    | Ignored
    | NotFound
    | AlreadyPicked(name: string)
    | Picked(name: string, deductions: seq<Inventory.StockRequest>)

  /** Every record with the found record's id becomes completed. */
  function MarkCompleted(records: seq<Record>, id: int): (out: seq<Record>)
    ensures |out| == |records|
    ensures forall k :: 0 <= k < |records| ==>
      out[k] == if records[k].id == id then records[k].(status := Completed) else records[k]
  {
    seq(|records|, k requires 0 <= k < |records| =>
      if records[k].id == id then records[k].(status := Completed) else records[k])
  }

  /** The scan handler on the record list. */
  function ScanRecords(records: seq<Record>, code: string): (r: (seq<Record>, ScanOutcome))
    ensures r.1 == Ignored <==> Trim(code) == ""
    ensures r.1 == NotFound <==> Trim(code) != "" && forall x :: x in records ==> TrackingOf(x.notes) != Trim(code)
    ensures !r.1.Picked? ==> r.0 == records
    ensures |r.0| == |records|
  {
    var trimmed := Trim(code);
    if trimmed == "" then (records, Ignored)
    else
      var i := FindByTracking(records, trimmed);
      if i < 0 then (records, NotFound)
      else
        assert records[i] in records;
        if records[i].status == Completed then (records, AlreadyPicked(LabelOf(records[i])))
      else (MarkCompleted(records, records[i].id),
            Picked(LabelOf(records[i]), Deductions(ItemList(records[i].items))))
  }

  /** A scan finds nothing exactly when the trimmed code is not blank and no
      record's tracking id equals it; only a pick changes the list. */
  lemma ScanNotFoundIff(records: seq<Record>, code: string)
    ensures var (out, o) := ScanRecords(records, code);
      (o == NotFound <==> Trim(code) != "" && forall r :: r in records ==> TrackingOf(r.notes) != Trim(code)) &&
      (o == Ignored <==> Trim(code) == "") &&
      (!o.Picked? ==> out == records)
  {
    var (out, o) := ScanRecords(records, code);
    var i := FindByTracking(records, Trim(code));
    if Trim(code) != "" && i >= 0 {
      assert records[i] in records;
    }
  }

  /** A pick completes the first matching record, which was not completed, and
      every record sharing its id; all other records and fields stay as they
      were. */
  lemma ScanPicksFirstMatch(records: seq<Record>, code: string)
    requires ScanRecords(records, code).1.Picked?
    ensures var i := FindByTracking(records, Trim(code));
      var out := ScanRecords(records, code).0;
      0 <= i < |records| && TrackingOf(records[i].notes) == Trim(code) && records[i].status != Completed &&
      |out| == |records| && out[i].status == Completed &&
      forall k :: 0 <= k < |records| ==>
        out[k].(status := records[k].status) == records[k] &&
        (out[k].status == Completed || out[k].status == records[k].status) &&
        (records[k].id != records[i].id ==> out[k] == records[k])
  {
  }

  /** Scanning the same code again only warns: the record found is the same one
      and it is now completed. */
  lemma ScanTwiceWarns(records: seq<Record>, code: string)
    requires ScanRecords(records, code).1.Picked?
    ensures var (out, o) := ScanRecords(records, code);
      ScanRecords(out, code) == (out, AlreadyPicked(o.name))
  {
    var t := Trim(code);
    var i := FindByTracking(records, t);
    PickedShape(records, code);
    var out := MarkCompleted(records, records[i].id);
    RefindCompleted(records, t, i);
    ScanFindsCompleted(out, code, i);
  }

  /** A pick returns the list with the found record completed, under its label. */
  lemma PickedShape(records: seq<Record>, code: string)
    requires ScanRecords(records, code).1.Picked?
    ensures var i := FindByTracking(records, Trim(code));
      Trim(code) != "" && 0 <= i < |records| &&
      ScanRecords(records, code).0 == MarkCompleted(records, records[i].id) &&
      ScanRecords(records, code).1.name == LabelOf(records[i])
  {
  }

  /** After marking the found record, the search finds it again, completed. */
  lemma RefindCompleted(records: seq<Record>, t: string, i: int)
    requires 0 <= i < |records| && i == FindByTracking(records, t)
    ensures var out := MarkCompleted(records, records[i].id);
      FindByTracking(out, t) == i && out[i].status == Completed && LabelOf(out[i]) == LabelOf(records[i])
  {
    var out := MarkCompleted(records, records[i].id);
    forall k | 0 <= k < |out|
      ensures out[k].notes == records[k].notes
    {
    }
    FindSameNotes(records, out, t);
  }

  /** A scan that finds a completed record changes nothing and names it. */
  lemma ScanFindsCompleted(records: seq<Record>, code: string, i: int)
    requires Trim(code) != "" && i == FindByTracking(records, Trim(code)) && i >= 0
    requires records[i].status == Completed
    ensures ScanRecords(records, code) == (records, AlreadyPicked(LabelOf(records[i])))
  {
  }

  /** The search depends only on the notes. */
  lemma FindSameNotes(a: seq<Record>, b: seq<Record>, code: string)
    requires |a| == |b| && forall k :: 0 <= k < |a| ==> a[k].notes == b[k].notes
    ensures FindByTracking(a, code) == FindByTracking(b, code)
  {
    assert Trackings(a) == Trackings(b);
  }

  /** The deductions loop over a found record's items. */
  method CollectDeductions(items: seq<Item>) returns (ds: seq<Inventory.StockRequest>)
    ensures ds == Deductions(items)
  {
    ds := [];
    var i := 0;
    while i < |items|
      invariant 0 <= i <= |items|
      invariant ds == Deductions(items[..i])
    {
      assert items[..i + 1][..i] == items[..i];
      if items[i].variantSku != "" {
        ds := ds + [Inventory.StockRequest(items[i].variantSku, items[i].quantity, false)];
      }
      i := i + 1;
    }
    assert items[..i] == items;
  }

  // ---------------------------------------------------------------- filter

  datatype StatusFilter = All | PendingFilter | CompletedFilter | Overdue

  /** Whether the list shows a record under the filter; `isPast(date)` says the
      record's day is before today. */
  predicate Shown(f: StatusFilter, r: Record, isPast: string -> bool) {
    match f
    case All => true
    case PendingFilter => r.status != Completed
    case CompletedFilter => r.status == Completed
    case Overdue => isPast(r.date) && r.status != Completed
  }

  function Visible(records: seq<Record>, f: StatusFilter, isPast: string -> bool): seq<Record> {
    Filter(records, (r: Record) => Shown(f, r, isPast))
  }

  /** 'all' shows every record. */
  lemma AllShowsEverything(records: seq<Record>, isPast: string -> bool)
    ensures Visible(records, All, isPast) == records
  {
    FilterKeepsAll(records, (r: Record) => Shown(All, r, isPast));
  }

  /** 'pending' and 'completed' split the records between them. */
  lemma PendingCompletedPartition(records: seq<Record>, isPast: string -> bool)
    ensures multiset(Visible(records, PendingFilter, isPast)) + multiset(Visible(records, CompletedFilter, isPast))
      == multiset(records)
  {
    FilterSplit(records, (r: Record) => Shown(PendingFilter, r, isPast), (r: Record) => Shown(CompletedFilter, r, isPast));
  }

  /** The overdue records are the pending records whose day is past. */
  lemma OverdueArePending(records: seq<Record>, isPast: string -> bool)
    ensures multiset(Visible(records, Overdue, isPast)) <= multiset(Visible(records, PendingFilter, isPast))
    ensures forall r :: r in Visible(records, Overdue, isPast) <==> r in records && isPast(r.date) && r.status != Completed
  {
    FilterStricter(records, (r: Record) => Shown(Overdue, r, isPast), (r: Record) => Shown(PendingFilter, r, isPast));
  }

  // ---------------------------------------------------------------- page

  /** The page's record list, reloaded after each save. */
  class EcommercePage {
    var records: seq<Record>

    constructor(loaded: seq<Record>)
      ensures records == loaded
    {
      records := loaded;
    }

    /** `handleImportExcel` after the sheet has been read. */
    method Import(hasTikTokColumn: bool, hasShopeeColumn: bool, rows: seq<Row>,
                  today: string, day: string -> string) returns (result: ImportResult)
      modifies this
      ensures (records, result) == ImportInto(old(records), hasTikTokColumn, hasShopeeColumn, rows, today, day)
    {
      var src := DetectSource(hasTikTokColumn, hasShopeeColumn);
      if src.None? {
        return WrongFormat;
      }
      var groups := GroupOrders(src.value, rows);
      var created, skipped := Numbering.BuildRecords(groups, Qualifies(records), Maker(Batch(src.value, today, day)),
                                                     NextId(Ids(records)));
      if |created| == 0 {
        result := NothingImported(skipped);
      } else {
        records := created + records;
        result := Imported(|created|, skipped);
      }
    }

    /** `handleScan`: the deductions are returned for the stock update. */
    method Scan(code: string) returns (outcome: ScanOutcome)
      modifies this
      ensures (records, outcome) == ScanRecords(old(records), code)
    {
      var trimmed := Trim(code);
      if trimmed == "" {
        return Ignored;
      }
      var i := FindByTracking(records, trimmed);
      if i < 0 {
        return NotFound;
      }
      var found := records[i];
      if found.status == Completed {
        return AlreadyPicked(LabelOf(found));
      }
      var ds := CollectDeductions(ItemList(found.items));
      records := MarkCompleted(records, found.id);
      outcome := Picked(LabelOf(found), ds);
    }
  }
}
