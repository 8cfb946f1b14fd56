/** The stock-balance screen: one line per stock-keeping unit with the stock the
    system holds and the stock counted on the shelf, and the adjustments that
    bring the system in line with the count. Each adjustment is a
    `products:updateStock` request; the history of balance records is kept
    newest first. */
module StockBalance {
  import opened Lists
  import opened Catalog
  import Inventory

  /** `StockBalanceItem`; a line for a product without variants has no colour. */
  datatype BalanceItem = BalanceItem(
    sku: string, productName: string, color: Option<string>,
    systemStock: int, actualStock: int, difference: int)

  datatype BalanceRecord = BalanceRecord(
    id: int, date: string, adjustedBy: string, items: seq<BalanceItem>, notes: string)

  datatype Stats = Stats(totalProducts: nat, needAdjustment: nat, balanced: nat)

  /** A freshly generated line: the count defaults to the system stock. */
  predicate Unchecked(it: BalanceItem) {
    it.actualStock == it.systemStock && it.difference == 0
  }

  function VariantItem(p: Product, v: Variant): BalanceItem {
    BalanceItem(v.sku, p.name, Some(v.color), v.stock, v.stock, 0)
  }

  function ParentItem(p: Product): BalanceItem {
    BalanceItem(p.sku, p.name, None, p.stock, p.stock, 0)
  }

  /** The lines one product contributes: one per variant when its variants parse
      (none for an empty list), otherwise, absent or unparseable, one for itself. */
  function ProductItems(p: Product): (r: seq<BalanceItem>)
    ensures p.variants.Parsed? ==> |r| == |p.variants.list|
    ensures p.variants.Parsed? ==> forall k :: 0 <= k < |r| ==> r[k] == VariantItem(p, p.variants.list[k])
    ensures !p.variants.Parsed? ==> r == [ParentItem(p)]
  {
    match p.variants
    case Parsed(vs) => seq(|vs|, k requires 0 <= k < |vs| => VariantItem(p, vs[k]))
    case _ => [ParentItem(p)]
  }

  /** `generateBalanceItems`: the products' lines in product order. */
  function BalanceItems(ps: seq<Product>): (r: seq<BalanceItem>)
    ensures forall k :: 0 <= k < |r| ==> Unchecked(r[k])
    ensures (forall k :: 0 <= k < |ps| ==> !ps[k].variants.Parsed?) ==>
      |r| == |ps| && forall k :: 0 <= k < |ps| ==> r[k] == ParentItem(ps[k])
    decreases |ps|
  {
    if ps == [] then []
    else
      var init := ps[..|ps| - 1];
      assert forall k :: 0 <= k < |init| ==> init[k] == ps[k];
      BalanceItems(init) + ProductItems(ps[|ps| - 1])
  }

  /** The inner pass of `generateBalanceItems`: one line per parsed variant,
      or one line for the product itself. */
  method AppendProductItems(acc: seq<BalanceItem>, p: Product) returns (r: seq<BalanceItem>)
    ensures r == acc + ProductItems(p)
  {
    r := acc;
    if p.variants.Parsed? {
      var vs := p.variants.list;
      ghost var line := ProductItems(p);
      var j := 0;
      while j < |vs|
        invariant 0 <= j <= |vs|
        invariant r == acc + line[..j]
      {
        r := r + [VariantItem(p, vs[j])];
        assert line[..j + 1] == line[..j] + [line[j]];
        j := j + 1;
      }
      assert line[..j] == line;
    } else {
      r := r + [ParentItem(p)];
    }
  }

  /** The lines of the first i + 1 products extend those of the first i. */
  lemma BalanceItemsStep(ps: seq<Product>, i: int)
    requires 0 <= i < |ps|
    ensures BalanceItems(ps[..i + 1]) == BalanceItems(ps[..i]) + ProductItems(ps[i])
  {
    assert ps[..i + 1][..i] == ps[..i];
  }

  /** Every generated line starts unchecked, and each names the product it came from. */
  lemma {:induction false} BalanceItemsUnchecked(ps: seq<Product>)
    ensures forall k :: 0 <= k < |BalanceItems(ps)| ==> Unchecked(BalanceItems(ps)[k])
    ensures forall k :: 0 <= k < |BalanceItems(ps)| ==>
      exists j :: 0 <= j < |ps| && BalanceItems(ps)[k].productName == ps[j].name
    decreases |ps|
  {
    if ps != [] {
      var init := ps[..|ps| - 1];
      BalanceItemsUnchecked(init);
      var a := BalanceItems(init);
      var b := ProductItems(ps[|ps| - 1]);
      assert BalanceItems(ps) == a + b;
      forall k | 0 <= k < |a + b|
        ensures Unchecked((a + b)[k])
        ensures exists j :: 0 <= j < |ps| && (a + b)[k].productName == ps[j].name
      {
        if k < |a| {
          assert (a + b)[k] == a[k];
          var j :| 0 <= j < |init| && a[k].productName == init[j].name;
          assert ps[j] == init[j];
        } else {
          var last := |ps| - 1;
          assert (a + b)[k] == b[k - |a|];
          assert b[k - |a|].productName == ps[last].name;
        }
      }
    } else {
      assert BalanceItems(ps) == [];
    }
  }

  /** `calculateStats` */
  function CountNeedingAdjustment(items: seq<BalanceItem>): (n: nat)
    ensures n <= |items|
    ensures n == 0 <==> forall k :: 0 <= k < |items| ==> items[k].difference == 0
  {
    if items == [] then 0
    else CountNeedingAdjustment(items[1..]) + (if items[0].difference != 0 then 1 else 0)
  }

  function CountBalanced(items: seq<BalanceItem>): (n: nat)
    ensures n <= |items|
  {
    if items == [] then 0
    else CountBalanced(items[1..]) + (if items[0].difference == 0 then 1 else 0)
  }

  function CalculateStats(items: seq<BalanceItem>): (r: Stats)
    ensures r.totalProducts == |items| && r.needAdjustment <= |items| && r.balanced <= |items|
    ensures r.needAdjustment == 0 <==> forall k :: 0 <= k < |items| ==> items[k].difference == 0
  {
    Stats(|items|, CountNeedingAdjustment(items), CountBalanced(items))
  }

  /** Every line is counted exactly once: needing adjustment plus balanced is the total. */
  lemma {:induction false} StatsPartition(items: seq<BalanceItem>)
    ensures CalculateStats(items).needAdjustment + CalculateStats(items).balanced == CalculateStats(items).totalProducts
  {
    if items != [] {
      StatsPartition(items[1..]);
    }
  }

  /** `handleActualStockChange`: every line with that SKU takes the count and its
      difference from the system stock; every other line is unchanged. */
  function ActualStockChange(items: seq<BalanceItem>, sku: string, actual: int): (r: seq<BalanceItem>)
    ensures |r| == |items|
    ensures forall k :: 0 <= k < |items| ==>
      if items[k].sku == sku then
        r[k] == items[k].(actualStock := actual, difference := actual - items[k].systemStock)
      else r[k] == items[k]
  {
    seq(|items|, k requires 0 <= k < |items| =>
      if items[k].sku == sku then items[k].(actualStock := actual, difference := actual - items[k].systemStock)
      else items[k])
  }

  /** A line whose difference agrees with its count and system stock. */
  predicate Consistent(it: BalanceItem) {
    it.difference == it.actualStock - it.systemStock
  }

  /** Editing a count keeps every line consistent. */
  lemma ActualStockChangeKeepsConsistent(items: seq<BalanceItem>, sku: string, actual: int)
    requires forall k :: 0 <= k < |items| ==> Consistent(items[k])
    ensures forall k :: 0 <= k < |items| ==> Consistent(ActualStockChange(items, sku, actual)[k])
  {
  }

  /** `balanceItems.filter(item => item.difference !== 0)` */
  function NeedingAdjustment(items: seq<BalanceItem>): (r: seq<BalanceItem>)
    ensures |r| == CountNeedingAdjustment(items)
    ensures forall k :: 0 <= k < |r| ==> r[k].difference != 0 && r[k] in items
    ensures forall k :: 0 <= k < |items| && items[k].difference != 0 ==> items[k] in r
  {
    if items == [] then []
    else
      var rest := NeedingAdjustment(items[1..]);
      assert forall k :: 1 <= k < |items| ==> items[k] == items[1..][k - 1];
      if items[0].difference != 0 then [items[0]] + rest else rest
  }

  function NeedsAdjustment(it: BalanceItem): bool {
    it.difference != 0
  }

  /** The lines to adjust are the library filter of the lines: those with a
      difference, in order and with their repetitions. */
  lemma {:induction false} NeedingAdjustmentIsFilter(items: seq<BalanceItem>)
    ensures NeedingAdjustment(items) == Filter(items, NeedsAdjustment)
  {
    if items != [] {
      NeedingAdjustmentIsFilter(items[1..]);
      FilterFront(items, NeedsAdjustment);
    }
  }

  /** The request sent for one line: the size of the difference, added when the
      count is above the system stock and taken away otherwise. */
  function AdjustmentFor(it: BalanceItem): Inventory.StockRequest {
    Inventory.StockRequest(it.sku, if it.difference < 0 then -it.difference else it.difference, it.difference > 0)
  }

  /** Applied to the system stock, the request yields the counted stock. */
  lemma AdjustmentReachesCount(it: BalanceItem)
    requires Consistent(it) && it.actualStock >= 0
    ensures Inventory.Adjusted(it.systemStock, AdjustmentFor(it).quantity, AdjustmentFor(it).isAdd) == it.actualStock
  {
  }

  /** Sent through `products:updateStock` against a store whose stock for that SKU is
      the line's system stock, the request leaves the counted stock there. */
  lemma UpdateStockReachesCount(ps: seq<Product>, it: BalanceItem)
    requires Consistent(it) && it.actualStock >= 0
    requires var loc := Inventory.Locate(ps, it.sku);
      Inventory.ValidLocation(ps, loc) && Inventory.StockAt(ps, loc) == it.systemStock
    ensures var a := AdjustmentFor(it);
      var r := Inventory.UpdateSingle(ps, a.sku, a.quantity, a.isAdd);
      r.Some? && Inventory.StockAt(r.value, Inventory.Locate(ps, it.sku)) == it.actualStock
  {
    AdjustmentReachesCount(it);
  }

  function Adjustments(items: seq<BalanceItem>): (r: seq<Inventory.StockRequest>)
    ensures |r| == |items| && forall k :: 0 <= k < |items| ==> r[k] == AdjustmentFor(items[k])
  {
    seq(|items|, k requires 0 <= k < |items| => AdjustmentFor(items[k]))
  }

  function RecordIds(records: seq<BalanceRecord>): (ids: seq<int>)
    ensures |ids| == |records| && forall k :: 0 <= k < |records| ==> ids[k] == records[k].id
  {
    seq(|records|, k requires 0 <= k < |records| => records[k].id)
  }

  /** A new balance record: id one above the largest (1 for the first), made by the admin. */
  function NewRecord(records: seq<BalanceRecord>, date: string, items: seq<BalanceItem>, notes: string): (r: BalanceRecord)
    ensures forall k :: 0 <= k < |records| ==> records[k].id < r.id
    ensures records == [] ==> r.id == 1
    ensures r.items == items && r.notes == notes && r.adjustedBy == "Admin"
  {
    BalanceRecord(NextId(RecordIds(records)), date, "Admin", items, notes)
  }

  predicate UniqueRecordIds(records: seq<BalanceRecord>) {
    forall a, b :: 0 <= a < b < |records| ==> records[a].id != records[b].id
  }

  /** Prepending a new record keeps record ids unique. */
  lemma PrependKeepsUniqueIds(records: seq<BalanceRecord>, date: string, items: seq<BalanceItem>, notes: string)
    requires UniqueRecordIds(records)
    ensures UniqueRecordIds([NewRecord(records, date, items, notes)] + records)
  {
    var rs := [NewRecord(records, date, items, notes)] + records;
    forall a, b | 0 <= a < b < |rs| ensures rs[a].id != rs[b].id {
      assert rs[b] == records[b - 1];
      if a > 0 { assert rs[a] == records[a - 1]; }
    }
  }

  /** The default note of a quick balance. */
  const QuickNote: string := "Cân bằng nhanh"

  /** `handleQuickBalanceSubmit`: no request when the count matches; otherwise one
      request and one record holding the edited line. An empty note becomes the
      default note. */
  function QuickBalance(it: BalanceItem, actual: int, records: seq<BalanceRecord>, date: string, notes: string):
    (r: Option<(Inventory.StockRequest, BalanceRecord)>)
    ensures r.None? <==> actual == it.systemStock
    ensures r.Some? ==>
      var edited := it.(actualStock := actual, difference := actual - it.systemStock);
      r.value.0 == AdjustmentFor(edited) && r.value.1.items == [edited] &&
      r.value.1.notes == (if notes == "" then QuickNote else notes) &&
      forall k :: 0 <= k < |records| ==> records[k].id < r.value.1.id
  {
    var difference := actual - it.systemStock;
    if difference == 0 then None
    else
      var edited := it.(actualStock := actual, difference := difference);
      Some((AdjustmentFor(edited), NewRecord(records, date, [edited], if notes == "" then QuickNote else notes)))
  }

  /** The state of the screen: the lines and the balance history. */
  class BalanceSheet {
    var items: seq<BalanceItem>
    var records: seq<BalanceRecord>

    constructor(loaded: seq<BalanceRecord>)
      ensures items == [] && records == loaded
    {
      items := [];
      records := loaded;
    }

    function Stats(): Stats
      reads this
    {
      CalculateStats(items)
    }

    /** `generateBalanceItems`: one pass over the products, and for a product with
        parsed variants one pass over its variants. */
    method GenerateBalanceItems(ps: seq<Product>)
      modifies this`items
      ensures items == BalanceItems(ps)
    {
      var acc: seq<BalanceItem> := [];
      var i := 0;
      while i < |ps|
        invariant 0 <= i <= |ps|
        invariant acc == BalanceItems(ps[..i])
      {
        acc := AppendProductItems(acc, ps[i]);
        BalanceItemsStep(ps, i);
        assert acc == BalanceItems(ps[..i + 1]);
        i := i + 1;
      }
      assert ps[..i] == ps;
      items := acc;
    }

    /** `handleActualStockChange` */
    method ChangeActualStock(sku: string, actual: int)
      modifies this`items
      ensures items == ActualStockChange(old(items), sku, actual)
    {
      items := ActualStockChange(items, sku, actual);
    }

    /** `handleApplyBalance`: with no line to adjust nothing is sent and nothing
        changes; otherwise one request per such line, in order, and one record
        holding exactly those lines at the head of the history. */
    method ApplyBalance(date: string, notes: string) returns (requests: seq<Inventory.StockRequest>)
      modifies this`records
      ensures var toAdjust := NeedingAdjustment(items);
        (toAdjust == [] ==> requests == [] && records == old(records)) &&
        (toAdjust != [] ==>
          requests == Adjustments(toAdjust) && records == [NewRecord(old(records), date, toAdjust, notes)] + old(records))
    {
      var toAdjust := NeedingAdjustment(items);
      if toAdjust == [] {
        return [];
      }
      requests := [];
      var i := 0;
      while i < |toAdjust|
        invariant 0 <= i <= |toAdjust|
        invariant requests == Adjustments(toAdjust[..i])
      {
        requests := requests + [AdjustmentFor(toAdjust[i])];
        i := i + 1;
      }
      assert toAdjust[..i] == toAdjust;
      records := [NewRecord(records, date, toAdjust, notes)] + records;
    }
  }
}
