/** The marketplace order sheets that the order pages import: the source is
    told by its column names, and each row of either layout becomes one order
    item. Column lookups with their `||` fallbacks are taken as already done,
    so a Row holds the resolved cells ("" for a missing text cell). */
module OrderSheet {
  import opened Text
  import opened Lists

  datatype Source = TikTok | Shopee

  /** A sheet row with the cells the import reads. `status` is Shopee's order
      status cell; TikTok sheets do not have one. */
  datatype Row = Row(
    orderId: string,
    productName: string,
    variation: string,
    sku: string,
    quantity: int,
    cancelledTime: string,
    shippingProvider: string,
    trackingId: string,
    status: string,
    amount: int)

  /** An order item as stored in a record's item list; `color` is "" when the
      row has no variation. */
  datatype Item = Item(productName: string, color: string, variantSku: string, quantity: int, total: int)

  /** The stored item list: the records keep it as JSON text, and text that
      does not parse is read as no items. */
  datatype ItemsField = Items(list: seq<Item>) | CorruptItems

  function ItemList(f: ItemsField): seq<Item> {
    if f.Items? then f.list else []
  }

  /** TikTok when the first row has a TikTok column, else Shopee when it has a
      Shopee column, else the sheet is refused. */
  function DetectSource(hasTikTokColumn: bool, hasShopeeColumn: bool): (r: Option<Source>)
    ensures r == None <==> !hasTikTokColumn && !hasShopeeColumn
    ensures r == Some(TikTok) <==> hasTikTokColumn
  {
    if hasTikTokColumn then Some(TikTok)
    else if hasShopeeColumn then Some(Shopee)
    else None
  }

  function OrderId(r: Row): string {
    r.orderId
  }

  /** The first row of an order; an order in the order map always has one,
      and the blank row stands in when there is none. */
  function FirstRow(rows: seq<Row>): Row {
    if rows != [] then rows[0] else Row("", "", "", "", 0, "", "", "", "", 0)
  }

  /** A row lacking its order id or product name is skipped. */
  predicate HasOrderAndProduct(r: Row) {
    r.orderId != "" && r.productName != ""
  }

  /** TikTok sheets carry a row describing the columns; it is recognised by
      its text. */
  predicate IsDescriptionRow(r: Row) {
    Contains(r.orderId, "Platform unique") || Contains(r.trackingId, "order's tracking")
  }

  /** What an import knows besides the rows: the sheet's source, today's
      date, and how a cell's time is formatted as a day. */
  datatype Batch = Batch(src: Source, today: string, day: string -> string)

  /** The reason written on a cancelled order: fixed for TikTok, the order
      status cell for Shopee, or a fixed text when that cell is empty. */
  function CancelReason(src: Source, first: Row): string {
    match src
    case TikTok => "Hủy đơn TikTok"
    case Shopee => if first.status != "" then first.status else "Hủy đơn Shopee"
  }

  /** The item a row becomes: the variation is appended to the product name
      after " - " and kept as the colour; the row amount is the item total. */
  function ItemOf(r: Row): (it: Item)
    ensures it.variantSku == r.sku && it.quantity == r.quantity && it.total == r.amount
    ensures r.variation == "" ==> it.productName == r.productName
    ensures r.variation != "" ==> it.productName == r.productName + " - " + r.variation && it.color == r.variation
  {
    Item(if r.variation != "" then r.productName + " - " + r.variation else r.productName,
         r.variation, r.sku, r.quantity, r.amount)
  }

  /** `orderItems.map(oi => oi.item)`: the items of a group, in row order. */
  function ItemsOf(rows: seq<Row>): (items: seq<Item>)
    ensures |items| == |rows| && forall k :: 0 <= k < |rows| ==> items[k] == ItemOf(rows[k])
  {
    seq(|rows|, k requires 0 <= k < |rows| => ItemOf(rows[k]))
  }

  /** `items.reduce((sum, item) => sum + item.quantity, 0)`. */
  function TotalQuantity(items: seq<Item>): int {
    if items == [] then 0 else TotalQuantity(items[..|items| - 1]) + items[|items| - 1].quantity
  }

  /** The sum of the item totals. */
  function ItemsTotal(items: seq<Item>): int {
    if items == [] then 0 else ItemsTotal(items[..|items| - 1]) + items[|items| - 1].total
  }

  /** `orderItems.reduce((sum, oi) => sum + (oi.totalAmount || 0), 0)`. */
  function RowsAmount(rows: seq<Row>): int {
    if rows == [] then 0 else RowsAmount(rows[..|rows| - 1]) + rows[|rows| - 1].amount
  }

  /** `orderItems.reduce((sum, oi) => sum + oi.item.quantity, 0)` on the rows. */
  function RowsQuantity(rows: seq<Row>): int {
    if rows == [] then 0 else RowsQuantity(rows[..|rows| - 1]) + rows[|rows| - 1].quantity
  }

  /** A record's total amount, summed over the rows, equals the sum of its
      items' totals, and its quantity the sum of its items' quantities. */
  lemma {:induction false} ItemsTotalsMatchRows(rows: seq<Row>)
    ensures ItemsTotal(ItemsOf(rows)) == RowsAmount(rows)
    ensures TotalQuantity(ItemsOf(rows)) == RowsQuantity(rows)
  {
    if rows != [] {
      var init := rows[..|rows| - 1];
      assert ItemsOf(rows)[..|rows| - 1] == ItemsOf(init);
      ItemsTotalsMatchRows(init);
    }
  }
}
