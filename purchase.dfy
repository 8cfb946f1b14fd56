/** The purchase form: the item lines of a purchase being entered, the colour
    options it offers for the chosen product, and the total it submits. The
    stock the saved purchase adds is modelled in Inventory. A form field
    that is left empty is 0 (numbers) or "" (text). */
module Purchase {
  import opened Lists
  import Catalog

  /** One line of the purchase; `color` and `variantSku` are "" without a
      colour. */
  datatype PurchaseItem = PurchaseItem(
    productId: int,
    productName: string,
    sku: string,
    color: string,
    variantSku: string,
    unit: string,
    quantity: int,
    unitPrice: int,
    total: int)

  /** The unit a line gets when the unit field is empty. */
  const DefaultUnit := "Cái"

  /** `unit || 'Cái'`. */
  function UnitOr(unit: string): string {
    if unit != "" then unit else DefaultUnit
  }

  // ---------------------------------------------------------------- lines

  /** The line `handleAddItem` builds, or None when product or quantity is
      missing; an empty unit price counts as 0. An unknown product gives an
      empty name and SKU. A chosen colour is appended to the name, and the
      variant of that colour, if any, gives the variant SKU. */
  function NewItem(products: seq<Catalog.Product>, variants: seq<Catalog.Variant>,
                   productId: int, color: string, quantity: int, unitPrice: int, unit: string): (r: Option<PurchaseItem>)
    ensures r.None? <==> productId == 0 || quantity == 0
    ensures r.Some? ==>
      var pi := Catalog.ProductIndexById(products, productId);
      var j := Catalog.VariantIndexByColor(variants, color);
      var name := if pi >= 0 then products[pi].name else "";
      r.value.productId == productId && r.value.color == color &&
      r.value.quantity == quantity && r.value.unitPrice == unitPrice &&
      r.value.total == quantity * unitPrice &&
      r.value.unit == (if unit != "" then unit else DefaultUnit) &&
      r.value.sku == (if pi >= 0 then products[pi].sku else "") &&
      (color == "" ==> r.value.productName == name && r.value.variantSku == "") &&
      (color != "" ==> r.value.productName == name + " - " + color) &&
      (color != "" && j >= 0 ==> r.value.variantSku == variants[j].sku && variants[j].color == color) &&
      (j < 0 ==> r.value.variantSku == "")
  {
    if productId == 0 || quantity == 0 then None
    else
      var pi := Catalog.ProductIndexById(products, productId);
      var name := if pi >= 0 then products[pi].name else "";
      var sku := if pi >= 0 then products[pi].sku else "";
      var j := if color != "" then Catalog.VariantIndexByColor(variants, color) else -1;
      Some(PurchaseItem(productId, if color != "" then name + " - " + color else name, sku, color,
                        if j >= 0 then variants[j].sku else "", UnitOr(unit),
                        quantity, unitPrice, quantity * unitPrice))
  }

  /** Some line of the list is for that product in that colour. */
  predicate ColorAdded(items: seq<PurchaseItem>, productId: int, color: string) {
    exists k :: 0 <= k < |items| && items[k].productId == productId && items[k].color == color
  }

  /** The colour options the form offers for the chosen product: its
      variants whose colour is not already on a line for that product. */
  function ColorOptions(variants: seq<Catalog.Variant>, items: seq<PurchaseItem>, productId: int): (r: seq<Catalog.Variant>)
    ensures forall v :: v in r <==> v in variants && !ColorAdded(items, productId, v.color)
  {
    Filter(variants, (v: Catalog.Variant) => !ColorAdded(items, productId, v.color))
  }

  /** After a line is added, its colour is no longer offered for its
      product, and every other option stays. */
  lemma AddedColorNotOffered(variants: seq<Catalog.Variant>, items: seq<PurchaseItem>, it: PurchaseItem)
    ensures forall v :: v in ColorOptions(variants, items + [it], it.productId) <==>
      v in ColorOptions(variants, items, it.productId) && v.color != it.color
  {
    var after := items + [it];
    forall v: Catalog.Variant
      ensures ColorAdded(after, it.productId, v.color) <==> ColorAdded(items, it.productId, v.color) || v.color == it.color
    {
      if ColorAdded(items, it.productId, v.color) {
        var k :| 0 <= k < |items| && items[k].productId == it.productId && items[k].color == v.color;
        assert after[k] == items[k];
      }
      if v.color == it.color {
        assert after[|items|] == it;
      }
      if ColorAdded(after, it.productId, v.color) {
        var k :| 0 <= k < |after| && after[k].productId == it.productId && after[k].color == v.color;
        if k < |items| {
          assert after[k] == items[k];
        }
      }
    }
  }

  /** No two lines are for the same product in the same colour. */
  predicate DistinctColorLines(items: seq<PurchaseItem>) {
    forall i, j :: 0 <= i < j < |items| && items[i].color != "" ==>
      items[i].productId != items[j].productId || items[i].color != items[j].color
  }

  /** Adding a line whose colour was one of the offered options keeps the
      lines distinct. */
  lemma AddOfferedKeepsDistinct(variants: seq<Catalog.Variant>, items: seq<PurchaseItem>, it: PurchaseItem, v: Catalog.Variant)
    requires DistinctColorLines(items)
    requires v in ColorOptions(variants, items, it.productId) && v.color == it.color
    ensures DistinctColorLines(items + [it])
  {
    var after := items + [it];
    forall i, j | 0 <= i < j < |after| && after[i].color != ""
      ensures after[i].productId != after[j].productId || after[i].color != after[j].color
    {
      if j == |items| {
        assert after[i] == items[i] && after[j] == it;
      } else {
        assert after[i] == items[i] && after[j] == items[j];
      }
    }
  }

  // ---------------------------------------------------------------- submit

  /** A line's total. */
  function LineTotal(it: PurchaseItem): int {
    it.total
  }

  /** `purchaseItems.reduce((sum, item) => sum + item.total, 0)`. */
  function ItemsSum(items: seq<PurchaseItem>): int {
    SumBy(items, LineTotal)
  }

  /** What a submit saves besides the form's own fields. */
  datatype Payload = Payload(items: seq<PurchaseItem>, totalAmount: int, createdBy: string)

  /** `handleSubmit`: refused for an empty list; otherwise the lines, their
      total, and the creator, which an edit keeps from the purchase being
      edited (`editing`) and a new purchase takes from the current user. */
  function Submit(items: seq<PurchaseItem>, editing: Option<string>, currentUser: string): (r: Option<Payload>)
    ensures r.None? <==> items == []
    ensures r.Some? ==> r.value.items == items && r.value.totalAmount == ItemsSum(items)
    ensures r.Some? && editing.Some? ==> r.value.createdBy == editing.value
    ensures r.Some? && editing.None? ==> r.value.createdBy == currentUser
  {
    if items == [] then None
    else Some(Payload(items, ItemsSum(items), if editing.Some? then editing.value else currentUser))
  }

  /** Every line added with a price adds exactly quantity × price to the
      submitted total. */
  lemma AddedLineTotal(items: seq<PurchaseItem>, it: PurchaseItem, editing: Option<string>, currentUser: string)
    requires it.total == it.quantity * it.unitPrice
    ensures Submit(items + [it], editing, currentUser).Some?
    ensures Submit(items + [it], editing, currentUser).value.totalAmount == ItemsSum(items) + it.quantity * it.unitPrice
  {
    SumByAppend(items, [it], LineTotal);
  }

  // ---------------------------------------------------------------- form

  /** The form: its lines, the variants of the chosen product, and the unit
      price and unit fields that choosing a product or colour fills in. */
  class PurchaseForm {
    var items: seq<PurchaseItem>
    var selectedVariants: seq<Catalog.Variant>
    var unitPrice: int
    var unit: string

    constructor()
      ensures items == [] && selectedVariants == [] && unitPrice == 0 && unit == ""
    {
      items := [];
      selectedVariants := [];
      unitPrice := 0;
      unit := "";
    }

    /** `handleProductSelect`; `productUnit` is the product's unit cell.
        A product with variant text gets its parsed variants (none when the
        text does not parse); otherwise there are no variants and a known
        product's cost fills the unit price. */
    method SelectProduct(products: seq<Catalog.Product>, productId: int, productUnit: string)
      modifies this
      ensures var pi := Catalog.ProductIndexById(products, productId);
        unit == (if pi >= 0 then UnitOr(productUnit) else DefaultUnit) &&
        (pi >= 0 && !products[pi].variants.NoVariants? ==>
          selectedVariants == Catalog.VariantsOrEmpty(products[pi].variants) && unitPrice == old(unitPrice)) &&
        (pi < 0 ==> selectedVariants == [] && unitPrice == old(unitPrice)) &&
        (pi >= 0 && products[pi].variants.NoVariants? ==> selectedVariants == [] && unitPrice == products[pi].cost)
      ensures items == old(items)
    {
      var pi := Catalog.ProductIndexById(products, productId);
      unit := if pi >= 0 then UnitOr(productUnit) else DefaultUnit;
      if pi >= 0 && !products[pi].variants.NoVariants? {
        selectedVariants := Catalog.VariantsOrEmpty(products[pi].variants);
      } else {
        selectedVariants := [];
        if pi >= 0 {
          unitPrice := products[pi].cost;
        }
      }
    }

    /** `handleColorSelect`: the variant of that colour fills the unit
        price with its cost, unless the cost is 0. */
    method SelectColor(color: string)
      modifies this
      ensures var j := Catalog.VariantIndexByColor(selectedVariants, color);
        unitPrice == if j >= 0 && selectedVariants[j].cost != 0 then selectedVariants[j].cost else old(unitPrice)
      ensures items == old(items) && selectedVariants == old(selectedVariants) && unit == old(unit)
    {
      var j := Catalog.VariantIndexByColor(selectedVariants, color);
      if j >= 0 && selectedVariants[j].cost != 0 {
        unitPrice := selectedVariants[j].cost;
      }
    }

    /** `handleAddItem` with the form's unit price and unit: appends the new
        line and clears the chosen product's variants and the price, or
        changes nothing when it refuses. */
    method AddItem(products: seq<Catalog.Product>, productId: int, color: string, quantity: int)
      returns (added: bool)
      modifies this
      ensures var r := NewItem(products, old(selectedVariants), productId, color, quantity, old(unitPrice), old(unit));
        added == r.Some? &&
        items == (if added then old(items) + [r.value] else old(items)) &&
        selectedVariants == (if added then [] else old(selectedVariants)) &&
        unitPrice == (if added then 0 else old(unitPrice))
      ensures added ==> ItemsSum(items) == ItemsSum(old(items)) + quantity * old(unitPrice)
      ensures unit == old(unit)
    {
      var r := NewItem(products, selectedVariants, productId, color, quantity, unitPrice, unit);
      if r.None? {
        return false;
      }
      SumBySnoc(items, r.value, LineTotal);
      items := items + [r.value];
      selectedVariants := [];
      unitPrice := 0;
      added := true;
    }

    /** `handleRemoveItem`: drops line i and exactly its total. */
    method RemoveItem(i: int)
      modifies this
      ensures items == RemoveAt(old(items), i)
      ensures 0 <= i < |old(items)| ==> ItemsSum(items) == ItemsSum(old(items)) - old(items)[i].total
      ensures selectedVariants == old(selectedVariants) && unitPrice == old(unitPrice) && unit == old(unit)
    {
      if 0 <= i < |items| {
        SumByRemoveAt(items, i, LineTotal);
      }
      items := RemoveAt(items, i);
    }
  }
}
