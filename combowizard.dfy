/** The three-step combo wizard: pick a product, set how many of each colour
    variant go into the combo, then save a combo whose SKU, name and cost are
    derived from that choice unless the user typed their own. The quantities are
    a record keyed by variant index; removing Vietnamese diacritics is a library
    string routine and is a parameter here. */
module ComboWizard {
  import opened Text
  import opened Lists
  import opened Catalog

  /** `quantities[idx] || 0` */
  function Qty(q: map<nat, int>, i: nat): int {
    if i in q then q[i] else 0
  }

  /** Every key of the quantity record names one of the n variants. The price
      reads `variants[idx].cost` for every key, so any other key makes the page
      throw. */
  predicate KeysInRange(q: map<nat, int>, n: nat) {
    forall i :: i in q ==> i < n
  }

  /** Every key with a positive quantity names one of the n variants. The SKU,
      the name and the items read `variants[idx]` for these keys only. */
  predicate SelectedInRange(q: map<nat, int>, n: nat) {
    forall i :: i in q && q[i] > 0 ==> i < n
  }

  /** The keys below n with a positive quantity, ascending, as `Object.entries`
      lists integer keys. */
  function SelectedBelow(q: map<nat, int>, n: nat): (r: seq<nat>)
    ensures forall k :: 0 <= k < |r| ==> r[k] < n && Qty(q, r[k]) > 0
  {
    if n == 0 then []
    else SelectedBelow(q, n - 1) + (if Qty(q, n - 1) > 0 then [n - 1] else [])
  }

  /** The selection is in increasing index order and holds every index below n
      whose quantity is positive. */
  lemma {:induction false} SelectedBelowComplete(q: map<nat, int>, n: nat)
    ensures Increasing(SelectedBelow(q, n))
    ensures forall i :: 0 <= i < n && Qty(q, i) > 0 ==> i in SelectedBelow(q, n)
  {
    SelectedBelowSorted(q, n);
    SelectedBelowHasAll(q, n);
  }

  predicate Increasing(s: seq<nat>) {
    forall a, b :: 0 <= a < b < |s| ==> s[a] < s[b]
  }

  lemma {:induction false} SelectedBelowSorted(q: map<nat, int>, n: nat)
    ensures Increasing(SelectedBelow(q, n))
  {
    if n > 0 {
      SelectedBelowSorted(q, n - 1);
      var prev := SelectedBelow(q, n - 1);
      if Qty(q, n - 1) > 0 {
        var r := prev + [n - 1];
        assert SelectedBelow(q, n) == r;
        forall a, b | 0 <= a < b < |r| ensures r[a] < r[b] {
          assert r[a] == prev[a] && prev[a] < n - 1;
          if b < |prev| {
            assert r[b] == prev[b];
          }
        }
      } else {
        assert SelectedBelow(q, n) == prev;
      }
    }
  }

  lemma {:induction false} SelectedBelowHasAll(q: map<nat, int>, n: nat)
    ensures forall i :: 0 <= i < n && Qty(q, i) > 0 ==> i in SelectedBelow(q, n)
  {
    if n > 0 {
      SelectedBelowHasAll(q, n - 1);
      var prev := SelectedBelow(q, n - 1);
      if Qty(q, n - 1) > 0 {
        assert SelectedBelow(q, n) == prev + [n - 1];
      } else {
        assert SelectedBelow(q, n) == prev;
      }
    }
  }

  /** `Object.entries(quantities).filter(([, qty]) => qty > 0)` */
  function Selected(vs: seq<Variant>, q: map<nat, int>): seq<nat> {
    SelectedBelow(q, |vs|)
  }

  /** `Object.values(quantities).some(q => q > 0)` holds exactly when something is selected. */
  lemma SomePositiveIffSelected(vs: seq<Variant>, q: map<nat, int>)
    requires KeysInRange(q, |vs|)
    ensures HasQuantity(q) <==> Selected(vs, q) != []
  {
    if exists i :: i in q && q[i] > 0 {
      var i :| i in q && q[i] > 0;
      SelectedBelowComplete(q, |vs|);
      assert i in Selected(vs, q);
    }
    if Selected(vs, q) != [] {
      var i := Selected(vs, q)[0];
      assert i in q && q[i] > 0;
    }
  }

  /** One part of a mixed combo's SKU: the quantity, then the colour without
      diacritics, upper-cased, with whitespace removed. */
  function SkuPart(vs: seq<Variant>, q: map<nat, int>, i: nat, fold: string -> string): string
    requires i < |vs|
  {
    IntToString(Qty(q, i)) + RemoveSpaces(Upper(fold(vs[i].color)))
  }

  function SkuParts(vs: seq<Variant>, q: map<nat, int>, sel: seq<nat>, fold: string -> string): (r: seq<string>)
    requires forall k :: 0 <= k < |sel| ==> sel[k] < |vs|
    ensures |r| == |sel| && forall k :: 0 <= k < |sel| ==> r[k] == SkuPart(vs, q, sel[k], fold)
  {
    seq(|sel|, k requires 0 <= k < |sel| => SkuPart(vs, q, sel[k], fold))
  }

  /** `generateSku`: None when a selected key names no variant, where the page
      throws reading `.sku` or `.color` of undefined. */
  function GenerateSku(vs: seq<Variant>, q: map<nat, int>, fold: string -> string): (sku: Option<string>)
    ensures sku.None? <==> !SelectedInRange(q, |vs|)
    ensures sku.Some? ==> (sku.value == "" <==> Selected(vs, q) == [])
    ensures sku.Some? && |Selected(vs, q)| == 1 ==>
      var i := Selected(vs, q)[0];
      sku.value == IntToString(Qty(q, i)) + "-" + vs[i].sku
  {
    var sel := Selected(vs, q);
    if !SelectedInRange(q, |vs|) then None
    else if |sel| == 0 then Some("")
    else if |sel| == 1 then Some(IntToString(Qty(q, sel[0])) + "-" + vs[sel[0]].sku)
    else Some("CB-" + Join(SkuParts(vs, q, sel, fold), '-'))
  }

  lemma NoDashInNumber(n: nat)
    ensures '-' !in IntToString(n)
  {
    var s := IntToString(n);
    forall k | 0 <= k < |s| ensures s[k] != '-' {
      assert IsDigit(s[k]);
    }
  }

  lemma NoDashInPart(s: string)
    requires '-' !in s
    ensures '-' !in RemoveSpaces(Upper(s))
  {
    var u := Upper(s);
    forall k | 0 <= k < |u| ensures u[k] != '-' {
      assert u[k] == UpperChar(s[k]);
    }
  }

  /** A mixed combo's SKU is "CB-" followed by one '-'-separated part per selected
      variant, in index order, provided no colour contains a '-' of its own. */
  lemma MixedSkuHasOnePartPerVariant(vs: seq<Variant>, q: map<nat, int>, fold: string -> string)
    requires |Selected(vs, q)| >= 2
    requires forall i :: 0 <= i < |vs| && Qty(q, i) > 0 ==> '-' !in fold(vs[i].color)
    ensures var r := GenerateSku(vs, q, fold);
      r.Some? ==> var sku := r.value;
        |sku| >= 3 && sku[..3] == "CB-" &&
        Split(sku[3..], '-') == SkuParts(vs, q, Selected(vs, q), fold)
  {
    if SelectedInRange(q, |vs|) {
      var sel := Selected(vs, q);
      var parts := SkuParts(vs, q, sel, fold);
      forall k | 0 <= k < |parts| ensures '-' !in parts[k] {
        NoDashInNumber(Qty(q, sel[k]));
        NoDashInPart(fold(vs[sel[k]].color));
      }
      SplitJoin(parts, '-');
      var sku := GenerateSku(vs, q, fold).value;
      assert sku == "CB-" + Join(parts, '-');
      assert sku[3..] == Join(parts, '-');
    }
  }

  function SumSelected(q: map<nat, int>, sel: seq<nat>): int {
    if sel == [] then 0 else SumSelected(q, sel[..|sel| - 1]) + Qty(q, sel[|sel| - 1])
  }

  function ColorNames(vs: seq<Variant>, sel: seq<nat>, fold: string -> string): (r: seq<string>)
    requires forall k :: 0 <= k < |sel| ==> sel[k] < |vs|
    ensures |r| == |sel| && forall k :: 0 <= k < |sel| ==> r[k] == fold(vs[sel[k]].color)
  {
    seq(|sel|, k requires 0 <= k < |sel| => fold(vs[sel[k]].color))
  }

  /** `generateName`: "Combo n Goi product - colour" for one variant, "Combo product -
      colour + colour ..." for several, "" for none; None when a selected key names
      no variant, where the page throws reading `.color` of undefined. */
  function GenerateName(vs: seq<Variant>, q: map<nat, int>, productName: string, fold: string -> string): (name: Option<string>)
    ensures name.None? <==> !SelectedInRange(q, |vs|)
    ensures name.Some? ==> (Selected(vs, q) == [] <==> name.value == "")
    ensures name.Some? && |Selected(vs, q)| == 1 ==>
      var i := Selected(vs, q)[0];
      name.value == "Combo " + IntToString(Qty(q, i)) + " Goi " + productName + " - " + fold(vs[i].color)
  {
    var sel := Selected(vs, q);
    if !SelectedInRange(q, |vs|) then None
    else if |sel| == 0 then Some("")
    else if |sel| == 1 then
      assert SumSelected(q, sel) == Qty(q, sel[0]);
      Some("Combo " + IntToString(SumSelected(q, sel)) + " Goi " + productName + " - " + fold(vs[sel[0]].color))
    else Some("Combo " + productName + " - " + JoinStr(ColorNames(vs, sel, fold), " + "))
  }

  /** The cost of the variants below n, cost times quantity, in index order. */
  function PriceBelow(vs: seq<Variant>, q: map<nat, int>, n: nat): int
    requires n <= |vs|
  {
    if n == 0 then 0 else PriceBelow(vs, q, n - 1) + LineCost(vs[n - 1], Qty(q, n - 1))
  }

  /** `variant.cost * qty` */
  function LineCost(v: Variant, qty: int): int {
    v.cost * qty
  }

  /** Σ cost × qty over the entries of the record whose keys are in ks, taken
      in no particular order. */
  ghost function EntriesCost(vs: seq<Variant>, q: map<nat, int>, ks: set<nat>): int
    requires forall k :: k in ks ==> k < |vs|
    decreases ks
  {
    if ks == {} then 0
    else
      var k :| k in ks;
      EntriesCost(vs, q, ks - {k}) + LineCost(vs[k], Qty(q, k))
  }

  /** Any entry can be taken out of the sum first. */
  lemma {:induction false} EntriesCostRemove(vs: seq<Variant>, q: map<nat, int>, ks: set<nat>, x: nat)
    requires forall k :: k in ks ==> k < |vs|
    requires x in ks
    ensures EntriesCost(vs, q, ks) == EntriesCost(vs, q, ks - {x}) + LineCost(vs[x], Qty(q, x))
    decreases ks
  {
    var y :| y in ks && EntriesCost(vs, q, ks) == EntriesCost(vs, q, ks - {y}) + LineCost(vs[y], Qty(q, y));
    if y != x {
      EntriesCostRemove(vs, q, ks - {y}, x);
      EntriesCostRemove(vs, q, ks - {x}, y);
      assert ks - {y} - {x} == ks - {x} - {y};
    }
  }

  ghost function KeysBelow(q: map<nat, int>, n: nat): set<nat> {
    set k | k in q && k < n
  }

  /** Summing the variants below n in index order is summing the record's
      entries below n. */
  lemma {:induction false} PriceBelowIsEntriesCost(vs: seq<Variant>, q: map<nat, int>, n: nat)
    requires n <= |vs|
    ensures PriceBelow(vs, q, n) == EntriesCost(vs, q, KeysBelow(q, n))
  {
    if n == 0 {
      assert KeysBelow(q, 0) == {};
    } else {
      PriceBelowIsEntriesCost(vs, q, n - 1);
      var now := KeysBelow(q, n);
      if n - 1 in q {
        EntriesCostRemove(vs, q, now, n - 1);
        assert now - {n - 1} == KeysBelow(q, n - 1);
      } else {
        assert now == KeysBelow(q, n - 1);
        assert LineCost(vs[n - 1], 0) == 0;
      }
    }
  }

  /** `calculatePrice`: the sum of cost × qty over every entry of the record;
      None when some key names no variant, where the page throws reading
      `.cost` of undefined, even for a quantity of 0. */
  function CalculatePrice(vs: seq<Variant>, q: map<nat, int>): (r: Option<int>)
    ensures r.None? <==> !KeysInRange(q, |vs|)
    ensures r.Some? ==> r.value == EntriesCost(vs, q, q.Keys)
  {
    if KeysInRange(q, |vs|) then
      PriceBelowIsEntriesCost(vs, q, |vs|);
      assert KeysBelow(q, |vs|) == q.Keys;
      Some(PriceBelow(vs, q, |vs|))
    else None
  }

  /** `handleSave`'s item for variant i. */
  function ItemFor(p: Product, vs: seq<Variant>, q: map<nat, int>, i: nat): ComboItem
    requires i < |vs|
  {
    ComboItem(p.id, p.name, i, vs[i].color, vs[i].sku, Qty(q, i))
  }

  function SavedItems(p: Product, vs: seq<Variant>, q: map<nat, int>, sel: seq<nat>): (r: seq<ComboItem>)
    requires forall k :: 0 <= k < |sel| ==> sel[k] < |vs|
    ensures |r| == |sel| && forall k :: 0 <= k < |sel| ==> r[k] == ItemFor(p, vs, q, sel[k])
  {
    seq(|sel|, k requires 0 <= k < |sel| => ItemFor(p, vs, q, sel[k]))
  }

  /** What `handleSave` hands on. */
  datatype SaveData = SaveData(sku: string, name: string, price: int, items: seq<ComboItem>, cost: int)

  /** `handleSave`: None when some key names no variant, where building the
      items or the price throws. Otherwise the items are exactly the variants
      with a positive quantity, in index order; a typed SKU or name replaces the
      generated one only when non-empty, and a typed price only when set and
      non-zero. */
  function Save(p: Product, q: map<nat, int>, customSku: string, customName: string,
                customPrice: Option<int>, fold: string -> string): (r: Option<SaveData>)
    ensures r.None? <==> !KeysInRange(q, |VariantsOrEmpty(p.variants)|)
    ensures r.Some? ==> var d := r.value; var vs := VariantsOrEmpty(p.variants);
      |d.items| == |Selected(vs, q)| &&
      (forall k :: 0 <= k < |d.items| ==>
        d.items[k].variantIndex == Selected(vs, q)[k] && d.items[k].quantity > 0 &&
        d.items[k].productId == p.id && d.items[k].sku == vs[Selected(vs, q)[k]].sku) &&
      (forall i :: 0 <= i < |vs| && Qty(q, i) > 0 ==> exists k :: 0 <= k < |d.items| && d.items[k].variantIndex == i)
    ensures r.Some? ==> var d := r.value; var vs := VariantsOrEmpty(p.variants);
      Some(d.sku) == (if customSku != "" then Some(customSku) else GenerateSku(vs, q, fold)) &&
      Some(d.name) == (if customName != "" then Some(customName) else GenerateName(vs, q, p.name, fold)) &&
      Some(d.cost) == CalculatePrice(vs, q) &&
      d.price == (if customPrice.Some? && customPrice.value != 0 then customPrice.value else d.cost)
  {
    var vs := VariantsOrEmpty(p.variants);
    if !KeysInRange(q, |vs|) then None
    else
      var sel := Selected(vs, q);
      var items := SavedItems(p, vs, q, sel);
      SavedItemsCover(p, vs, q);
      var cost := CalculatePrice(vs, q).value;
      Some(SaveData(
        if customSku != "" then customSku else GenerateSku(vs, q, fold).value,
        if customName != "" then customName else GenerateName(vs, q, p.name, fold).value,
        if customPrice.Some? && customPrice.value != 0 then customPrice.value else cost,
        items, cost))
  }

  /** The saved items are the selected variants, one each, and every variant
      with a positive quantity is among them. */
  lemma SavedItemsCover(p: Product, vs: seq<Variant>, q: map<nat, int>)
    ensures var sel := Selected(vs, q);
      var items := SavedItems(p, vs, q, sel);
      |items| == |sel| &&
      (forall k :: 0 <= k < |items| ==>
        items[k].variantIndex == sel[k] && items[k].quantity > 0 &&
        items[k].productId == p.id && items[k].sku == vs[sel[k]].sku) &&
      (forall i :: 0 <= i < |vs| && Qty(q, i) > 0 ==> exists k :: 0 <= k < |items| && items[k].variantIndex == i)
  {
    var sel := Selected(vs, q);
    var items := SavedItems(p, vs, q, sel);
    SelectedBelowComplete(q, |vs|);
    forall i | 0 <= i < |vs| && Qty(q, i) > 0
      ensures exists k :: 0 <= k < |items| && items[k].variantIndex == i
    {
      var k :| 0 <= k < |sel| && sel[k] == i;
      assert items[k].variantIndex == i;
    }
  }

  /** The cost of a list of combo items: each item's variant cost times its quantity. */
  function ItemsCost(vs: seq<Variant>, items: seq<ComboItem>): int {
    if items == [] then 0
    else
      var last := items[|items| - 1];
      ItemsCost(vs, items[..|items| - 1]) +
        (if 0 <= last.variantIndex < |vs| then LineCost(vs[last.variantIndex], last.quantity) else 0)
  }

  /** With no negative quantity, the wizard's cost is the cost of the saved items:
      entries at 0 add nothing. */
  lemma {:induction false} PriceIsCostOfSavedItems(p: Product, vs: seq<Variant>, q: map<nat, int>, n: nat)
    requires n <= |vs|
    requires NoNegativeQuantity(q)
    ensures PriceBelow(vs, q, n) == ItemsCost(vs, SavedItems(p, vs, q, SelectedBelow(q, n)))
  {
    if n > 0 {
      PriceIsCostOfSavedItems(p, vs, q, n - 1);
      if Qty(q, n - 1) > 0 {
        PriceStepSelected(p, vs, q, n);
      } else {
        PriceStepSkipped(p, vs, q, n);
      }
    }
  }

  lemma PriceStepSelected(p: Product, vs: seq<Variant>, q: map<nat, int>, n: nat)
    requires 0 < n <= |vs| && Qty(q, n - 1) > 0
    requires PriceBelow(vs, q, n - 1) == ItemsCost(vs, SavedItems(p, vs, q, SelectedBelow(q, n - 1)))
    ensures PriceBelow(vs, q, n) == ItemsCost(vs, SavedItems(p, vs, q, SelectedBelow(q, n)))
  {
    var before := SelectedBelow(q, n - 1);
    assert SelectedBelow(q, n) == before + [n - 1];
    SavedCostAppend(p, vs, q, before, n - 1);
  }

  /** Appending variant i to the selection adds its line cost to the saved items' cost. */
  lemma SavedCostAppend(p: Product, vs: seq<Variant>, q: map<nat, int>, sel: seq<nat>, i: nat)
    requires i < |vs| && forall k :: 0 <= k < |sel| ==> sel[k] < |vs|
    ensures ItemsCost(vs, SavedItems(p, vs, q, sel + [i])) ==
      ItemsCost(vs, SavedItems(p, vs, q, sel)) + LineCost(vs[i], Qty(q, i))
  {
    SavedItemsAppend(p, vs, q, sel, i, sel + [i]);
    ItemsCostOfItemFor(p, vs, q, SavedItems(p, vs, q, sel), i);
  }

  lemma ItemsCostOfItemFor(p: Product, vs: seq<Variant>, q: map<nat, int>, items: seq<ComboItem>, i: nat)
    requires i < |vs|
    ensures ItemsCost(vs, items + [ItemFor(p, vs, q, i)]) == ItemsCost(vs, items) + LineCost(vs[i], Qty(q, i))
  {
    ItemsCostAppend(vs, items, ItemFor(p, vs, q, i));
  }

  lemma PriceStepSkipped(p: Product, vs: seq<Variant>, q: map<nat, int>, n: nat)
    requires 0 < n <= |vs| && Qty(q, n - 1) == 0
    requires PriceBelow(vs, q, n - 1) == ItemsCost(vs, SavedItems(p, vs, q, SelectedBelow(q, n - 1)))
    ensures PriceBelow(vs, q, n) == ItemsCost(vs, SavedItems(p, vs, q, SelectedBelow(q, n)))
  {
    assert SelectedBelow(q, n) == SelectedBelow(q, n - 1);
    assert LineCost(vs[n - 1], 0) == 0;
  }

  lemma SavedItemsAppend(p: Product, vs: seq<Variant>, q: map<nat, int>, sel: seq<nat>, i: nat, now: seq<nat>)
    requires i < |vs| && forall k :: 0 <= k < |sel| ==> sel[k] < |vs|
    requires now == sel + [i]
    ensures SavedItems(p, vs, q, now) == SavedItems(p, vs, q, sel) + [ItemFor(p, vs, q, i)]
  {
  }

  lemma ItemsCostAppend(vs: seq<Variant>, items: seq<ComboItem>, x: ComboItem)
    ensures ItemsCost(vs, items + [x]) ==
      ItemsCost(vs, items) + (if 0 <= x.variantIndex < |vs| then LineCost(vs[x.variantIndex], x.quantity) else 0)
  {
    assert (items + [x])[..|items|] == items;
  }

  predicate NoNegativeQuantity(q: map<nat, int>) {
    forall i :: i in q ==> q[i] >= 0
  }

  /** The minus button: one less, never below 0. */
  function Decrement(q: map<nat, int>, i: nat): (r: map<nat, int>)
    ensures Qty(r, i) == (if Qty(q, i) > 0 then Qty(q, i) - 1 else 0)
    ensures forall j :: j != i ==> Qty(r, j) == Qty(q, j)
    ensures (forall j :: j in q ==> q[j] >= 0) ==> forall j :: j in r ==> r[j] >= 0
  {
    q[i := if Qty(q, i) - 1 > 0 then Qty(q, i) - 1 else 0]
  }

  /** The plus button: exactly one more. */
  function Increment(q: map<nat, int>, i: nat): (r: map<nat, int>)
    ensures Qty(r, i) == Qty(q, i) + 1
    ensures forall j :: j != i ==> Qty(r, j) == Qty(q, j)
  {
    q[i := Qty(q, i) + 1]
  }

  /** Plus then minus gives every variant its former quantity back. */
  lemma IncrementThenDecrement(q: map<nat, int>, i: nat)
    requires forall j :: j in q ==> q[j] >= 0
    ensures forall j :: Qty(Decrement(Increment(q, i), i), j) == Qty(q, j)
  {
  }

  /** The index of the last item for variant i, or -1 when no item is for it. */
  function LastFor(items: seq<ComboItem>, i: int): (j: int)
    ensures -1 <= j < |items|
    ensures j >= 0 ==> items[j].variantIndex == i
    ensures forall k :: j < k < |items| ==> items[k].variantIndex != i
  {
    if items == [] then -1
    else if items[|items| - 1].variantIndex == i then |items| - 1
    else LastFor(items[..|items| - 1], i)
  }

  /** The quantity record loaded for editing a combo: `newQty[variantIndex] =
      quantity` for each item in order, so the last item for an index wins. An
      item with a negative index stands for one without `variantIndex`, which
      the loop skips. */
  function QuantitiesOf(items: seq<ComboItem>): (r: map<nat, int>)
    ensures forall i: nat :: i in r <==> LastFor(items, i) >= 0
    ensures forall i: nat :: i in r ==> r[i] == items[LastFor(items, i)].quantity
  {
    if items == [] then map[]
    else
      var init := items[..|items| - 1];
      var m := QuantitiesOf(init);
      var it := items[|items| - 1];
      if it.variantIndex >= 0 then m[it.variantIndex as nat := it.quantity] else m
  }

  /** Editing a saved combo loads back the quantities it was saved from: the
      saved items name each selected variant once, and the entries left out of
      them were 0. */
  lemma ReloadRestoresQuantities(p: Product, q: map<nat, int>, customSku: string, customName: string,
                                 customPrice: Option<int>, fold: string -> string)
    requires NoNegativeQuantity(q)
    requires Save(p, q, customSku, customName, customPrice, fold).Some?
    ensures forall i :: Qty(QuantitiesOf(Save(p, q, customSku, customName, customPrice, fold).value.items), i) == Qty(q, i)
  {
    var vs := VariantsOrEmpty(p.variants);
    assert Save(p, q, customSku, customName, customPrice, fold).value.items == SavedItems(p, vs, q, Selected(vs, q));
    forall i: nat ensures Qty(QuantitiesOf(SavedItems(p, vs, q, Selected(vs, q))), i) == Qty(q, i) {
      ReloadedQuantity(p, vs, q, i);
    }
  }

  lemma ReloadedQuantity(p: Product, vs: seq<Variant>, q: map<nat, int>, i: nat)
    requires NoNegativeQuantity(q) && KeysInRange(q, |vs|)
    ensures Qty(QuantitiesOf(SavedItems(p, vs, q, Selected(vs, q))), i) == Qty(q, i)
  {
    var sel := Selected(vs, q);
    var items := SavedItems(p, vs, q, sel);
    var j := LastFor(items, i);
    SelectedBelowComplete(q, |vs|);
    if Qty(q, i) > 0 {
      var k :| 0 <= k < |sel| && sel[k] == i;
      assert items[k].variantIndex == i;
    }
  }

  /** `Object.values(quantities).some(q => q > 0)` */
  predicate HasQuantity(q: map<nat, int>) {
    exists i :: i in q && q[i] > 0
  }

  /** The wizard's state. */
  class Wizard {
    var step: int
    var product: Option<Product>
    var quantities: map<nat, int>
    var customSku: string
    var customName: string
    var customPrice: Option<int>

    /** A fresh wizard: step 1, nothing chosen, nothing typed. */
    constructor()
      ensures step == 1 && product == None && quantities == map[]
      ensures customSku == "" && customName == "" && customPrice == None
    {
      step := 1;
      product := None;
      quantities := map[];
      customSku := "";
      customName := "";
      customPrice := None;
    }

    /** Opening the wizard for a new combo: back to step 1 with nothing chosen
        and nothing typed; a pre-selected product id other than 0 chooses the
        first product with that id, when there is one. */
    method OpenNew(products: seq<Product>, preSelected: Option<int>)
      modifies this
      ensures step == 1 && quantities == map[]
      ensures customSku == "" && customName == "" && customPrice == None
      ensures var k := if preSelected.Some? && preSelected.value != 0 then ProductIndexById(products, preSelected.value) else -1;
        product == if k >= 0 then Some(products[k]) else None
    {
      step := 1;
      product := None;
      quantities := map[];
      customSku := "";
      customName := "";
      customPrice := None;
      if preSelected.Some? && preSelected.value != 0 {
        var k := ProductIndexById(products, preSelected.value);
        if k >= 0 {
          product := Some(products[k]);
        }
      }
    }

    /** Opening the wizard on a saved combo. Items that do not parse throw
        before anything is set. Otherwise, when the first item's product is in
        the list, that product is chosen and the quantities are loaded from the
        items (when it is not, both stay as they were); the combo's SKU, name and
        price fill the typed fields, and the wizard jumps to step 3. */
    method OpenEdit(products: seq<Product>, c: Combo)
      modifies this
      ensures c.items.CorruptItems? ==>
        step == old(step) && product == old(product) && quantities == old(quantities) &&
        customSku == old(customSku) && customName == old(customName) && customPrice == old(customPrice)
      ensures c.items.Items? ==>
        var items := c.items.list;
        var k := if items == [] then -1 else ProductIndexById(products, items[0].productId);
        step == 3 && customSku == c.sku && customName == c.name && customPrice == Some(c.price) &&
        (k >= 0 ==> product == Some(products[k]) && quantities == QuantitiesOf(items)) &&
        (k < 0 ==> product == old(product) && quantities == old(quantities))
    {
      if c.items.CorruptItems? {
        return;
      }
      var items := c.items.list;
      if items != [] {
        var k := ProductIndexById(products, items[0].productId);
        if k >= 0 {
          product := Some(products[k]);
          quantities := QuantitiesOf(items);
        }
      }
      customSku := c.sku;
      customName := c.name;
      customPrice := Some(c.price);
      step := 3;
    }

    /** Clicking a product card at step 1: that product is chosen. The
        quantities are kept, so keys set for a product with more variants stay
        in the record. */
    method SelectProduct(p: Product)
      modifies this`product
      ensures product == Some(p) && quantities == old(quantities)
    {
      product := Some(p);
    }

    /** The back button, shown above step 1: one step back. */
    method Back()
      modifies this`step
      ensures step == if old(step) > 1 then old(step) - 1 else old(step)
    {
      if step > 1 {
        step := step - 1;
      }
    }

    /** `handleNext`: step 1 moves on only with a product chosen, step 2 only with
        some positive quantity; otherwise, and at step 3, the step stays. */
    method Next() returns (moved: bool)
      modifies this`step
      ensures old(step) == 1 ==> moved == product.Some?
      ensures old(step) == 2 ==> moved == HasQuantity(quantities)
      ensures old(step) != 1 && old(step) != 2 ==> !moved
      ensures step == (if moved then old(step) + 1 else old(step))
    {
      moved := false;
      if step == 1 {
        if product.Some? {
          step := 2;
          moved := true;
        }
      } else if step == 2 {
        if HasQuantity(quantities) {
          step := 3;
          moved := true;
        }
      }
    }

    /** The minus button for variant `idx`. */
    method Minus(idx: nat)
      modifies this`quantities
      ensures quantities == Decrement(old(quantities), idx)
    {
      quantities := quantities[idx := if Qty(quantities, idx) - 1 > 0 then Qty(quantities, idx) - 1 else 0];
    }

    /** The plus button for variant `idx`. */
    method Plus(idx: nat)
      modifies this`quantities
      ensures quantities == Increment(old(quantities), idx)
    {
      quantities := quantities[idx := Qty(quantities, idx) + 1];
    }
  }
}
