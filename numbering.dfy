/** The last step of a sheet import: walk the orders in map order, give each
    order that qualifies a record with the next id (`startId++`), and count
    the others as skipped (`skippedCount++`). Generic in the order and record
    types; `make(g, id)` builds the record of order g. */
module Numbering {

  /** The records made and the orders skipped, after walking `gs`. */
  function Build<G, T>(gs: seq<G>, ok: G -> bool, make: (G, int) -> T, start: int): (res: (seq<T>, nat))
    ensures |res.0| + res.1 == |gs|
  {
    if gs == [] then ([], 0)
    else
      var prev := Build(gs[..|gs| - 1], ok, make, start);
      var g := gs[|gs| - 1];
      if ok(g) then (prev.0 + [make(g, start + |prev.0|)], prev.1) else (prev.0, prev.1 + 1)
  }

  /** The orders that qualify, in order. */
  function Selected<G>(gs: seq<G>, ok: G -> bool): (r: seq<G>)
    ensures |r| <= |gs|
  {
    if gs == [] then []
    else
      var init := Selected(gs[..|gs| - 1], ok);
      if ok(gs[|gs| - 1]) then init + [gs[|gs| - 1]] else init
  }

  /** An order is selected exactly when it is one of the orders and qualifies. */
  lemma {:induction false} SelectedIff<G>(gs: seq<G>, ok: G -> bool, g: G)
    ensures g in Selected(gs, ok) <==> g in gs && ok(g)
  {
    if gs != [] {
      var init := gs[..|gs| - 1];
      SelectedIff(init, ok, g);
      assert gs == init + [gs[|gs| - 1]];
    }
  }

  /** No order is selected exactly when none qualifies. */
  lemma SelectedEmptyIff<G>(gs: seq<G>, ok: G -> bool)
    ensures Selected(gs, ok) == [] <==> forall g :: g in gs ==> !ok(g)
  {
    var sel := Selected(gs, ok);
    if sel != [] {
      SelectedIff(gs, ok, sel[0]);
    } else {
      forall g | g in gs ensures !ok(g) {
        SelectedIff(gs, ok, g);
      }
    }
  }

  /** One record per qualifying order, in order, with ids counting up from
      `start`; every other order is counted as skipped. */
  lemma {:induction false} BuildIsSelected<G, T>(gs: seq<G>, ok: G -> bool, make: (G, int) -> T, start: int)
    ensures var res := Build(gs, ok, make, start);
      var sel := Selected(gs, ok);
      |res.0| == |sel| && res.1 == |gs| - |sel| &&
      forall k :: 0 <= k < |sel| ==> res.0[k] == make(sel[k], start + k)
  {
    if gs != [] {
      var init := gs[..|gs| - 1];
      BuildIsSelected(init, ok, make, start);
      var g := gs[|gs| - 1];
      if ok(g) {
        var prev := Build(init, ok, make, start);
        var sel' := Selected(init, ok);
        var res := Build(gs, ok, make, start);
        var sel := Selected(gs, ok);
        assert sel == sel' + [g];
        forall k | 0 <= k < |sel|
          ensures res.0[k] == make(sel[k], start + k)
        {
          if k < |sel'| {
            assert res.0[k] == prev.0[k] && sel[k] == sel'[k];
          }
        }
      }
    }
  }

  /** When every order qualifies, each one gets a record and none is skipped. */
  lemma {:induction false} BuildAllSelected<G, T>(gs: seq<G>, ok: G -> bool, make: (G, int) -> T, start: int)
    requires forall g :: g in gs ==> ok(g)
    ensures Selected(gs, ok) == gs && Build(gs, ok, make, start).1 == 0
  {
    if gs != [] {
      var init := gs[..|gs| - 1];
      assert forall g :: g in init ==> g in gs;
      BuildAllSelected(init, ok, make, start);
      assert gs == init + [gs[|gs| - 1]];
    }
  }

  /** The `forEach` with its two counters. */
  method BuildRecords<G, T>(gs: seq<G>, ok: G -> bool, make: (G, int) -> T, start: int)
    returns (created: seq<T>, skipped: nat)
    ensures (created, skipped) == Build(gs, ok, make, start)
  {
    var next := start;
    created := [];
    skipped := 0;
    var i := 0;
    while i < |gs|
      invariant 0 <= i <= |gs|
      invariant (created, skipped) == Build(gs[..i], ok, make, start)
      invariant next == start + |created|
    {
      assert gs[..i + 1][..i] == gs[..i];
      if ok(gs[i]) {
        created := created + [make(gs[i], next)];
        next := next + 1;
      } else {
        skipped := skipped + 1;
      }
      i := i + 1;
    }
    assert gs[..i] == gs;
  }
}
