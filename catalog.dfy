/** Records shared by the inventory handlers and the pages: products, their
    colour variants and combo products. Fields the program keeps as JSON text
    (`variants`, `items`) are held parsed, with an explicit case for text that
    does not parse. */
module Catalog {

  /** One colour variant of a product. A missing `stock` reads as 0. */
  datatype Variant = Variant(sku: string, color: string, stock: int, cost: int, price: int)

  /** The `variants` column: empty (falsy), a parsed list, or text JSON.parse rejects. */
  datatype Variants = NoVariants | Parsed(list: seq<Variant>) | Unparseable

  datatype Product = Product(
    id: int, sku: string, barcode: string, name: string,
    stock: int, cost: int, price: int, variants: Variants)

  /** One component of a combo: `quantity` units of variant `variantIndex` (or of
      the product itself) per combo. */
  datatype ComboItem = ComboItem(
    productId: int, productName: string, variantIndex: int,
    variantName: string, sku: string, quantity: int)

  /** The `items` column of a combo: `combo.items || '[]'` parsed, or unparseable. */
  datatype ComboItems = Items(list: seq<ComboItem>) | CorruptItems

  datatype Combo = Combo(
    id: int, sku: string, name: string, price: int, cost: int, stock: int, items: ComboItems)

  /** `variants.findIndex(v => v.sku === sku)` */
  function VariantIndexBySku(vs: seq<Variant>, sku: string): (r: int)
    ensures -1 <= r < |vs|
    ensures r >= 0 ==> vs[r].sku == sku
    ensures forall k :: 0 <= k < |vs| && (r == -1 || k < r) ==> vs[k].sku != sku
  {
    if vs == [] then -1
    else if vs[0].sku == sku then 0
    else
      var r := VariantIndexBySku(vs[1..], sku);
      assert forall k :: 1 <= k < |vs| ==> vs[k] == vs[1..][k - 1];
      if r == -1 then -1 else r + 1
  }

  /** `products.find(p => p.id === id)`, as an index. */
  function ProductIndexById(ps: seq<Product>, id: int): (r: int)
    ensures -1 <= r < |ps|
    ensures r >= 0 ==> ps[r].id == id
    ensures forall k :: 0 <= k < |ps| && (r == -1 || k < r) ==> ps[k].id != id
  {
    if ps == [] then -1
    else if ps[0].id == id then 0
    else
      var r := ProductIndexById(ps[1..], id);
      assert forall k :: 1 <= k < |ps| ==> ps[k] == ps[1..][k - 1];
      if r == -1 then -1 else r + 1
  }

  /** `variants.find(v => v.color === color)`, as an index. */
  function VariantIndexByColor(vs: seq<Variant>, color: string): (r: int)
    ensures -1 <= r < |vs|
    ensures r >= 0 ==> vs[r].color == color
    ensures forall k :: 0 <= k < |vs| && (r == -1 || k < r) ==> vs[k].color != color
  {
    if vs == [] then -1
    else if vs[0].color == color then 0
    else
      var r := VariantIndexByColor(vs[1..], color);
      assert forall k :: 1 <= k < |vs| ==> vs[k] == vs[1..][k - 1];
      if r == -1 then -1 else r + 1
  }

  /** The variant list a page works with: `JSON.parse(p.variants)` when present and
      parseable, otherwise the empty list. */
  function VariantsOrEmpty(v: Variants): seq<Variant> {
    if v.Parsed? then v.list else []
  }
}
