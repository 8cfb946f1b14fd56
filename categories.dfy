/** The in-memory category list the back end falls back to when no database is
    available (`categories:create`, `categories:update`, `categories:delete`). */
module MockCategories {
  import opened Lists

  datatype Category = Category(id: int, name: string)

  /** `mockCategories.findIndex(c => c.id === id)` */
  function IndexOfId(cs: seq<Category>, id: int): (r: int)
    ensures -1 <= r < |cs|
    ensures r >= 0 ==> cs[r].id == id
    ensures forall k :: 0 <= k < |cs| && (r == -1 || k < r) ==> cs[k].id != id
  {
    if cs == [] then -1
    else if cs[0].id == id then 0
    else
      var r := IndexOfId(cs[1..], id);
      assert forall k :: 1 <= k < |cs| ==> cs[k] == cs[1..][k - 1];
      if r == -1 then -1 else r + 1
  }

  function Ids(cs: seq<Category>): (ids: seq<int>)
    ensures |ids| == |cs| && forall k :: 0 <= k < |cs| ==> ids[k] == cs[k].id
  {
    seq(|cs|, k requires 0 <= k < |cs| => cs[k].id)
  }

  predicate UniqueIds(cs: seq<Category>) {
    forall a, b :: 0 <= a < b < |cs| ==> cs[a].id != cs[b].id
  }

  /** `categories:create` as written: the new id is the list length + 1. */
  function CreateAsWritten(cs: seq<Category>, name: string): (r: seq<Category>)
    ensures |r| == |cs| + 1 && r[..|cs|] == cs && r[|cs|] == Category(|cs| + 1, name)
  {
    cs + [Category(|cs| + 1, name)]
  }

  /** `categories:delete` of an existing id: the entry is spliced out. */
  function DeleteAt(cs: seq<Category>, i: nat): (r: seq<Category>)
    requires i < |cs|
    ensures |r| == |cs| - 1
    ensures forall k :: 0 <= k < |r| ==> r[k] == (if k < i then cs[k] else cs[k + 1])
  {
    RemoveAt(cs, i)
  }

  /** With the length rule a create after a delete can reuse a live id: from the
      initial list, create, delete id 1, create again, and id 2 appears twice. */
  lemma CreateAfterDeleteDuplicatesId()
    ensures var c0 := [Category(1, "Khẩu Trang")];
      var c1 := CreateAsWritten(c0, "A");
      var c2 := DeleteAt(c1, 0);
      var c3 := CreateAsWritten(c2, "B");
      UniqueIds(c0) && UniqueIds(c1) && !UniqueIds(c3)
  {
    var c0 := [Category(1, "Khẩu Trang")];
    var c1 := CreateAsWritten(c0, "A");
    var c2 := DeleteAt(c1, 0);
    assert c2 == [Category(2, "A")];
    var c3 := CreateAsWritten(c2, "B");
    assert c3[0].id == 2 && c3[1].id == 2;
  }

  /** Create with the id one above the largest live id. */
  function CreateWithNextId(cs: seq<Category>, name: string): (r: seq<Category>)
    ensures |r| == |cs| + 1 && r[..|cs|] == cs && r[|cs|].name == name
    ensures forall k :: 0 <= k < |cs| ==> cs[k].id < r[|cs|].id
    ensures cs == [] ==> r[0].id == 1
    ensures cs != [] ==> exists k :: 0 <= k < |cs| && r[|cs|].id == cs[k].id + 1
    ensures UniqueIds(cs) ==> UniqueIds(r)
  {
    var id := NextId(Ids(cs));
    cs + [Category(id, name)]
  }

  /** Deleting keeps ids unique, so create and delete together keep them unique. */
  lemma DeleteKeepsUniqueIds(cs: seq<Category>, i: nat)
    requires i < |cs| && UniqueIds(cs)
    ensures UniqueIds(DeleteAt(cs, i))
  {
    var r := DeleteAt(cs, i);
    forall a, b | 0 <= a < b < |r| ensures r[a].id != r[b].id {
      var a' := if a < i then a else a + 1;
      var b' := if b < i then b else b + 1;
      assert r[a] == cs[a'] && r[b] == cs[b'] && a' < b';
    }
  }

  /** The category list kept by the back end, with the corrected id rule. */
  class Store {
    var list: seq<Category>

    /** The list starts with one category. */
    constructor()
      ensures list == [Category(1, "Khẩu Trang")] && UniqueIds(list)
    {
      list := [Category(1, "Khẩu Trang")];
    }

    /** `categories:create`, with the new id one above the largest live id
        rather than the list length + 1: ids stay unique. */
    method Create(name: string) returns (c: Category)
      modifies this
      ensures list == CreateWithNextId(old(list), name) && c == list[|old(list)|]
      ensures UniqueIds(old(list)) ==> UniqueIds(list)
    {
      var id := if |list| > 0 then Max(Ids(list)) + 1 else 1;
      c := Category(id, name);
      list := list + [c];
    }

    /** `categories:update`: a missing id is an error and changes nothing; otherwise
        only that entry's name changes. */
    method Update(id: int, name: string) returns (ok: bool)
      modifies this
      ensures ok == (IndexOfId(old(list), id) >= 0)
      ensures !ok ==> list == old(list)
      ensures ok ==> var i := IndexOfId(old(list), id);
        list == old(list)[i := Category(old(list)[i].id, name)]
    {
      var i := IndexOfId(list, id);
      if i == -1 {
        return false;
      }
      list := list[i := Category(list[i].id, name)];
      return true;
    }

    /** `categories:delete`: a missing id is an error and changes nothing; otherwise
        exactly the first entry with that id is removed, and ids stay unique. */
    method Delete(id: int) returns (ok: bool)
      modifies this
      ensures ok == (IndexOfId(old(list), id) >= 0)
      ensures !ok ==> list == old(list)
      ensures ok ==> list == DeleteAt(old(list), IndexOfId(old(list), id))
      ensures UniqueIds(old(list)) ==> UniqueIds(list)
    {
      var i := IndexOfId(list, id);
      if i == -1 {
        return false;
      }
      if UniqueIds(list) {
        DeleteKeepsUniqueIds(list, i);
      }
      list := DeleteAt(list, i);
      return true;
    }
  }
}
