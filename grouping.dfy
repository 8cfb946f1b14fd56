/** Grouping rows by a key into an insertion-ordered map, as the import
    handlers do with `orderMap.has / set / get(...).push`. A Map iterates in
    insertion order, so it is modelled as a sequence of (key, rows) groups. */
module Grouping {
  import opened Lists

  datatype Group<K, R> = Group(key: K, rows: seq<R>)

  /** The keys of the groups, in order. */
  function Keys<K(==), R>(gs: seq<Group<K, R>>): (r: seq<K>)
    ensures |r| == |gs| && forall j :: 0 <= j < |gs| ==> r[j] == gs[j].key
  {
    seq(|gs|, j requires 0 <= j < |gs| => gs[j].key)
  }

  /** The key of every row, in order. */
  function RowKeys<K(==), R>(rs: seq<R>, key: R -> K): (r: seq<K>)
    ensures |r| == |rs| && forall k :: 0 <= k < |rs| ==> r[k] == key(rs[k])
  {
    seq(|rs|, k requires 0 <= k < |rs| => key(rs[k]))
  }

  /** `orderMap.has(k)`: the index of the group with key k, or -1. */
  function GroupIndex<K(==), R>(gs: seq<Group<K, R>>, k: K): (r: int)
    ensures -1 <= r < |gs|
    ensures r >= 0 ==> gs[r].key == k
    ensures r == -1 ==> forall j :: 0 <= j < |gs| ==> gs[j].key != k
  {
    if gs == [] then -1
    else if gs[|gs| - 1].key == k then |gs| - 1
    else GroupIndex(gs[..|gs| - 1], k)
  }

  /** One step of the `forEach`: push the row onto its key's group, creating the
      group at the end when the key is new. */
  function AddRow<K(==), R>(gs: seq<Group<K, R>>, k: K, row: R): seq<Group<K, R>> {
    var j := GroupIndex(gs, k);
    if j < 0 then gs + [Group(k, [row])] else gs[j := Group(k, gs[j].rows + [row])]
  }

  /** The groups built from the rows, one step per row. */
  function GroupBy<K(==), R>(rs: seq<R>, key: R -> K): (gs: seq<Group<K, R>>)
    ensures |gs| <= |rs|
    ensures forall a, b :: 0 <= a < b < |gs| ==> gs[a].key != gs[b].key
    ensures forall j :: 0 <= j < |gs| ==> gs[j].rows != []
  {
    if rs == [] then []
    else AddRow(GroupBy(rs[..|rs| - 1], key), key(rs[|rs| - 1]), rs[|rs| - 1])
  }

  /** The rows whose key is k, in order. */
  function RowsWithKey<K(==), R>(rs: seq<R>, key: R -> K, k: K): (r: seq<R>)
    ensures |r| <= |rs|
  {
    if rs == [] then []
    else
      var init := RowsWithKey(rs[..|rs| - 1], key, k);
      if key(rs[|rs| - 1]) == k then init + [rs[|rs| - 1]] else init
  }

  /** A row is among the rows with key k exactly when it is one of the rows
      and its key is k. */
  lemma {:induction false} RowsWithKeyIff<K, R>(rs: seq<R>, key: R -> K, k: K, x: R)
    ensures x in RowsWithKey(rs, key, k) <==> x in rs && key(x) == k
  {
    if rs != [] {
      var init := rs[..|rs| - 1];
      RowsWithKeyIff(init, key, k, x);
      assert rs == init + [rs[|rs| - 1]];
    }
  }

  /** Adding a row keeps the keys when its key is known and appends the key otherwise. */
  lemma KeysAddRow<K, R>(gs: seq<Group<K, R>>, k: K, row: R)
    ensures Keys(AddRow(gs, k, row)) == if k in Keys(gs) then Keys(gs) else Keys(gs) + [k]
  {
    var j := GroupIndex(gs, k);
    if j < 0 {
      assert k !in Keys(gs);
      assert Keys(gs + [Group(k, [row])]) == Keys(gs) + [k];
    } else {
      assert Keys(gs)[j] == k;
      assert Keys(AddRow(gs, k, row)) == Keys(gs);
    }
  }

  /** The group keys are the distinct row keys in order of first occurrence, so no
      key is repeated and the groups come in first-seen order. */
  lemma {:induction false} GroupKeysAreDistinctKeys<K, R>(rs: seq<R>, key: R -> K)
    ensures Keys(GroupBy(rs, key)) == Distinct(RowKeys(rs, key))
  {
    if rs != [] {
      var init := rs[..|rs| - 1];
      var row := rs[|rs| - 1];
      var ks := RowKeys(rs, key);
      GroupKeysAreDistinctKeys(init, key);
      assert ks[..|ks| - 1] == RowKeys(init, key);
      assert ks[|ks| - 1] == key(row);
      KeysAddRow(GroupBy(init, key), key(row), row);
    }
  }

  /** A key none of whose rows is present has no rows. */
  lemma {:induction false} RowsWithAbsentKey<K, R>(rs: seq<R>, key: R -> K, k: K)
    requires k !in RowKeys(rs, key)
    ensures RowsWithKey(rs, key, k) == []
  {
    if rs != [] {
      var init := rs[..|rs| - 1];
      assert RowKeys(rs, key)[..|rs| - 1] == RowKeys(init, key);
      assert RowKeys(rs, key)[|rs| - 1] == key(rs[|rs| - 1]);
      RowsWithAbsentKey(init, key, k);
    }
  }

  /** Each group holds exactly the rows with its key, in row order. */
  lemma {:induction false} GroupRowsAreRowsWithKey<K, R>(rs: seq<R>, key: R -> K)
    ensures var gs := GroupBy(rs, key);
      forall j :: 0 <= j < |gs| ==> gs[j].rows == RowsWithKey(rs, key, gs[j].key)
  {
    if rs != [] {
      var init := rs[..|rs| - 1];
      var row := rs[|rs| - 1];
      var gs := GroupBy(init, key);
      GroupRowsAreRowsWithKey(init, key);
      var j := GroupIndex(gs, key(row));
      var ns := GroupBy(rs, key);
      if j < 0 {
        GroupKeysAreDistinctKeys(init, key);
        assert key(row) !in RowKeys(init, key);
        RowsWithAbsentKey(init, key, key(row));
        forall i | 0 <= i < |ns| ensures ns[i].rows == RowsWithKey(rs, key, ns[i].key) {
          if i < |gs| {
            assert ns[i] == gs[i];
          }
        }
      } else {
        assert ns == gs[j := Group(key(row), gs[j].rows + [row])];
        GroupKeysAreDistinctKeys(init, key);
        forall i | 0 <= i < |ns| ensures ns[i].rows == RowsWithKey(rs, key, ns[i].key) {
          if i != j {
            assert ns[i] == gs[i];
            assert Keys(gs)[i] != Keys(gs)[j];
          } else {
            assert gs[j].key == key(row);
          }
        }
      }
    }
  }

  /** Every group has at least one row. */
  lemma {:induction false} GroupsNonEmpty<K, R>(rs: seq<R>, key: R -> K)
    ensures forall g :: g in GroupBy(rs, key) ==> g.rows != []
  {
    if rs != [] {
      GroupsNonEmpty(rs[..|rs| - 1], key);
    }
  }

  /** The rows of all groups, group after group. */
  function Flatten<K, R>(gs: seq<Group<K, R>>): seq<R> {
    if gs == [] then [] else gs[0].rows + Flatten(gs[1..])
  }

  lemma {:induction false} FlattenConcat<K, R>(a: seq<Group<K, R>>, b: seq<Group<K, R>>)
    ensures Flatten(a + b) == Flatten(a) + Flatten(b)
  {
    if a == [] {
      assert a + b == b;
    } else {
      assert (a + b)[1..] == a[1..] + b;
      FlattenConcat(a[1..], b);
    }
  }

  lemma FlattenSnoc<K, R>(gs: seq<Group<K, R>>, g: Group<K, R>)
    ensures Flatten(gs + [g]) == Flatten(gs) + g.rows
  {
    FlattenConcat(gs, [g]);
    assert [g][1..] == [];
    assert Flatten([g]) == g.rows + [];
  }

  /** Pushing a row onto group j adds exactly that row to the rows of all
      groups. */
  lemma {:induction false} FlattenPush<K, R>(gs: seq<Group<K, R>>, j: int, k: K, row: R)
    requires 0 <= j < |gs|
    ensures multiset(Flatten(gs[j := Group(k, gs[j].rows + [row])])) == multiset(Flatten(gs)) + multiset{row}
  {
    var ns := gs[j := Group(k, gs[j].rows + [row])];
    var rest := multiset(Flatten(gs[1..]));
    var nrest := multiset(Flatten(ns[1..]));
    assert multiset(Flatten(gs)) == multiset(gs[0].rows) + rest;
    assert multiset(Flatten(ns)) == multiset(ns[0].rows) + nrest;
    if j == 0 {
      assert ns[1..] == gs[1..];
      assert multiset(ns[0].rows) == multiset(gs[0].rows) + multiset{row};
    } else {
      assert ns[1..] == gs[1..][j - 1 := Group(k, gs[1..][j - 1].rows + [row])];
      assert ns[0] == gs[0];
      FlattenPush(gs[1..], j - 1, k, row);
      assert nrest == rest + multiset{row};
    }
  }

  /** One step of the `forEach` adds exactly its row. */
  lemma AddRowFlatten<K, R>(gs: seq<Group<K, R>>, k: K, row: R)
    ensures multiset(Flatten(AddRow(gs, k, row))) == multiset(Flatten(gs)) + multiset{row}
  {
    var j := GroupIndex(gs, k);
    if j < 0 {
      FlattenConcat(gs, [Group(k, [row])]);
      assert Flatten([Group(k, [row])]) == [row];
    } else {
      FlattenPush(gs, j, k, row);
    }
  }

  /** Every row lands in exactly one group: the groups' rows are a
      permutation of the rows. */
  lemma {:induction false} GroupByFlatten<K, R>(rs: seq<R>, key: R -> K)
    ensures multiset(Flatten(GroupBy(rs, key))) == multiset(rs)
  {
    if rs != [] {
      var init := rs[..|rs| - 1];
      GroupByFlatten(init, key);
      AddRowFlatten(GroupBy(init, key), key(rs[|rs| - 1]), rs[|rs| - 1]);
      assert rs == init + [rs[|rs| - 1]];
    }
  }

  /** The `forEach` that fills the map, with `has`, `set` and `push`. */
  method GroupRows<K(==), R>(rs: seq<R>, key: R -> K) returns (gs: seq<Group<K, R>>)
    ensures gs == GroupBy(rs, key)
  {
    gs := [];
    var i := 0;
    while i < |rs|
      invariant 0 <= i <= |rs|
      invariant gs == GroupBy(rs[..i], key)
    {
      assert rs[..i + 1][..i] == rs[..i];
      var k := key(rs[i]);
      var j := GroupIndex(gs, k);
      if j < 0 {
        gs := gs + [Group(k, [rs[i]])];
      } else {
        gs := gs[j := Group(k, gs[j].rows + [rs[i]])];
      }
      i := i + 1;
    }
    assert rs[..i] == rs;
  }
}
