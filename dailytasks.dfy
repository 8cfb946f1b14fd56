/** The daily task board: tasks in category columns, the confirm-to-complete
    status change with its history, category delete and rename, the list of
    assignees, tag entry, and the calendar of days. The page's state is a
    class whose fields the handlers reassign; times are parameters. */
module DailyTasks {
  import opened Lists
  import opened Text

  datatype Status = Pending | Completed

  /** A task; an absent verifier is "" and absent tags are []. */
  datatype Task = Task(
    id: int,
    title: string,
    category: string,
    assignee: string,
    verifier: string,
    status: Status,
    tags: seq<string>)

  /** A column of the board. */
  datatype Category = Category(key: string, icon: string, color: string, gradient: string)

  /** One line of the completion history. */
  datatype HistoryEntry = HistoryEntry(
    taskId: int,
    taskTitle: string,
    category: string,
    assignee: string,
    action: Status,
    timestamp: string,
    description: string)

  /** The category the tasks of a deleted category move to. */
  const Other := "Khác"

  /** The columns the board starts with. */
  const BuiltInCategories := [
    Category("Sàn TMDT", "\U{1F6D2}", "#1890ff", "linear-gradient(135deg, #667eea 0%, #764ba2 100%)"),
    Category("Kho hàng", "\U{1F4E6}", "#52c41a", "linear-gradient(135deg, #f093fb 0%, #f5576c 100%)"),
    Category("Chăm sóc KH", "\U{1F4AC}", "#eb2f96", "linear-gradient(135deg, #4facfe 0%, #00f2fe 100%)"),
    Category("Vệ sinh", "\U{1F9F9}", "#722ed1", "linear-gradient(135deg, #43e97b 0%, #38f9d7 100%)"),
    Category("Báo cáo", "\U{1F4CA}", "#fa8c16", "linear-gradient(135deg, #fa709a 0%, #fee140 100%)")]

  // ---------------------------------------------------------------- tasks

  /** `tasks.map(f)` */
  function MapTasks(tasks: seq<Task>, f: Task -> Task): (r: seq<Task>)
    ensures |r| == |tasks| && forall i :: 0 <= i < |tasks| ==> r[i] == f(tasks[i])
  {
    if tasks == [] then [] else MapTasks(tasks[..|tasks| - 1], f) + [f(tasks[|tasks| - 1])]
  }

  function InCategory(c: string): Task -> bool { (t: Task) => t.category == c }

  /** The number of tasks in category c. */
  function Count(tasks: seq<Task>, c: string): nat {
    |Filter(tasks, InCategory(c))|
  }

  /** Mapping then filtering counts what the filter would keep before the
      map. */
  lemma {:induction false} MapCount(tasks: seq<Task>, f: Task -> Task, p: Task -> bool, q: Task -> bool)
    requires forall t :: p(f(t)) == q(t)
    ensures |Filter(MapTasks(tasks, f), p)| == |Filter(tasks, q)|
  {
    if tasks != [] {
      var init := tasks[..|tasks| - 1];
      MapCount(init, f, p, q);
      var m := MapTasks(tasks, f);
      assert m[..|m| - 1] == MapTasks(init, f);
    }
  }

  /** A task of category `from` moved to `to`; any other task unchanged. */
  function MoveTo(from: string, to: string): Task -> Task {
    (t: Task) => if t.category == from then t.(category := to) else t
  }

  /** `tasks.map(task => task.category === from ? { ...task, category: to } : task)` */
  function Reassign(tasks: seq<Task>, from: string, to: string): seq<Task> {
    MapTasks(tasks, MoveTo(from, to))
  }

  function Never(t: Task): bool { false }

  function InEither(a: string, b: string): Task -> bool { (t: Task) => t.category == a || t.category == b }

  /** Reassigning empties `from`, adds its tasks to `to`, and leaves every
      other column's count. */
  lemma ReassignCounts(tasks: seq<Task>, from: string, to: string, c: string)
    requires from != to
    ensures Count(Reassign(tasks, from, to), c) ==
      (if c == from then 0
       else if c == to then Count(tasks, to) + Count(tasks, from)
       else Count(tasks, c))
  {
    if c == from {
      MapCount(tasks, MoveTo(from, to), InCategory(c), Never);
      FilterNone(tasks, Never);
    } else if c == to {
      MapCount(tasks, MoveTo(from, to), InCategory(c), InEither(from, to));
      FilterEitherCount(tasks, InCategory(to), InCategory(from), InEither(from, to));
    } else {
      MapCount(tasks, MoveTo(from, to), InCategory(c), InCategory(c));
    }
  }

  // ---------------------------------------------------------------- board

  /** Some column has key c. */
  predicate HasColumn(categories: seq<Category>, c: string) {
    exists i :: 0 <= i < |categories| && categories[i].key == c
  }

  /** Every task sits in some column of the board. */
  predicate AllShown(tasks: seq<Task>, categories: seq<Category>) {
    forall t :: t in tasks ==> HasColumn(categories, t.category)
  }

  function KeyIsNot(key: string): Category -> bool { (c: Category) => c.key != key }

  /** `categories.filter(c => c.key !== key)` */
  function RemoveCategory(categories: seq<Category>, key: string): (r: seq<Category>)
    ensures forall c :: c in r <==> c in categories && c.key != key
  {
    Filter(categories, KeyIsNot(key))
  }

  datatype Board = Board(categories: seq<Category>, tasks: seq<Task>)

  /** `handleDeleteCategory` as written: the column goes and its tasks move
      to 'Khác', whether or not a 'Khác' column exists. */
  function DeleteCategoryAsWritten(b: Board, key: string): (r: Board)
    ensures forall c :: c in r.categories <==> c in b.categories && c.key != key
    ensures !HasColumn(r.categories, key)
    ensures |r.tasks| == |b.tasks|
    ensures forall i :: 0 <= i < |b.tasks| ==>
      r.tasks[i] == if b.tasks[i].category == key then b.tasks[i].(category := Other) else b.tasks[i]
  {
    var cs := RemoveCategory(b.categories, key);
    assert forall i :: 0 <= i < |cs| ==> cs[i] in cs;
    Board(cs, Reassign(b.tasks, key, Other))
  }

  /** 'Khác' is not one of the columns the board starts with. */
  lemma OtherNotBuiltIn()
    ensures !HasColumn(BuiltInCategories, Other)
  {
    forall i | 0 <= i < |BuiltInCategories| ensures BuiltInCategories[i].key != Other {
      assert |BuiltInCategories[i].key| != |Other|;
    }
  }

  /** On the starting board, deleting 'Kho hàng' with a task in it leaves
      that task in no column. */
  lemma DeleteAsWrittenHidesTasks()
    ensures var b := Board(BuiltInCategories, [Task(8, "Nhập hàng mới về kho", "Kho hàng", "Toàn", "", Completed, [])]);
      AllShown(b.tasks, b.categories) &&
      !AllShown(DeleteCategoryAsWritten(b, "Kho hàng").tasks, DeleteCategoryAsWritten(b, "Kho hàng").categories)
  {
    var t := Task(8, "Nhập hàng mới về kho", "Kho hàng", "Toàn", "", Completed, []);
    var b := Board(BuiltInCategories, [t]);
    assert BuiltInCategories[1].key == t.category;
    OtherNotBuiltIn();
    DeleteWithoutOtherHides(b, "Kho hàng", 0);
  }

  /** On a board without 'Khác', deleting a column that holds a task leaves
      that task in no column. */
  lemma DeleteWithoutOtherHides(b: Board, key: string, i: int)
    requires !HasColumn(b.categories, Other)
    requires 0 <= i < |b.tasks| && b.tasks[i].category == key
    ensures !AllShown(DeleteCategoryAsWritten(b, key).tasks, DeleteCategoryAsWritten(b, key).categories)
  {
    var a := DeleteCategoryAsWritten(b, key);
    assert a.tasks[i] in a.tasks;
    RemovedHasNoOther(b.categories, key);
  }

  /** Removing a column from a board without 'Khác' leaves a board without it. */
  lemma RemovedHasNoOther(categories: seq<Category>, key: string)
    requires !HasColumn(categories, Other)
    ensures !HasColumn(RemoveCategory(categories, key), Other)
  {
    var cs := RemoveCategory(categories, key);
    forall i | 0 <= i < |cs| ensures cs[i].key != Other {
      assert cs[i] in categories;
    }
  }

  /** The column added for moved tasks when the board has no 'Khác'. */
  const OtherCategory := Category(Other, "", "", "")

  /** The corrected delete: as written, and a 'Khác' column is added when
      the board has none, so the moved tasks stay on the board. */
  function DeleteCategory(b: Board, key: string): (r: Board)
    ensures HasColumn(r.categories, Other)
  {
    var cs := RemoveCategory(b.categories, key);
    if HasColumn(cs, Other) then Board(cs, Reassign(b.tasks, key, Other))
    else
      assert (cs + [OtherCategory])[|cs|].key == Other;
      Board(cs + [OtherCategory], Reassign(b.tasks, key, Other))
  }

  /** Deleting a column keeps every task on the board, and (for a column
      other than 'Khác') moves exactly its tasks into 'Khác' and leaves the
      other columns' counts. */
  lemma DeleteKeepsTasksShown(b: Board, key: string, c: string)
    requires AllShown(b.tasks, b.categories)
    ensures AllShown(DeleteCategory(b, key).tasks, DeleteCategory(b, key).categories)
    ensures key != Other ==> (Count(DeleteCategory(b, key).tasks, c) ==
      (if c == key then 0
       else if c == Other then Count(b.tasks, Other) + Count(b.tasks, key)
       else Count(b.tasks, c)))
  {
    DeleteKeepsColumns(b, key);
    if key != Other {
      ReassignCounts(b.tasks, key, Other, c);
    }
  }

  /** After the corrected delete every task still has a column. */
  lemma DeleteKeepsColumns(b: Board, key: string)
    requires AllShown(b.tasks, b.categories)
    ensures AllShown(DeleteCategory(b, key).tasks, DeleteCategory(b, key).categories)
  {
    var r := DeleteCategory(b, key);
    var cs := RemoveCategory(b.categories, key);
    assert r.categories == cs || r.categories == cs + [OtherCategory];
    assert r.tasks == Reassign(b.tasks, key, Other);
    forall t | t in r.tasks ensures HasColumn(r.categories, t.category) {
      var k :| 0 <= k < |r.tasks| && r.tasks[k] == t;
      var u := b.tasks[k];
      assert u in b.tasks;
      if u.category != key {
        assert t == u;
        KeptColumn(b.categories, key, u.category);
        ColumnInAppend(cs, [OtherCategory], u.category);
      }
    }
  }

  /** A column other than the deleted one survives the removal. */
  lemma KeptColumn(categories: seq<Category>, key: string, c: string)
    requires HasColumn(categories, c) && c != key
    ensures HasColumn(RemoveCategory(categories, key), c)
  {
    var cs := RemoveCategory(categories, key);
    var i :| 0 <= i < |categories| && categories[i].key == c;
    assert categories[i] in cs;
    var j :| 0 <= j < |cs| && cs[j] == categories[i];
  }

  /** Appending columns keeps the ones already there. */
  lemma ColumnInAppend(cs: seq<Category>, more: seq<Category>, c: string)
    requires HasColumn(cs, c)
    ensures HasColumn(cs + more, c)
  {
    var j :| 0 <= j < |cs| && cs[j].key == c;
    assert (cs + more)[j].key == c;
  }

  /** `handleSaveCategory`: editing replaces the edited column by the form's
      values and, when the key changed, moves its tasks to the new key;
      otherwise the new column is appended. */
  function SaveCategory(b: Board, editing: Option<string>, values: Category): (r: Board)
    ensures editing.None? ==> r.categories == b.categories + [values] && r.tasks == b.tasks
    ensures editing.Some? ==> |r.categories| == |b.categories| && |r.tasks| == |b.tasks|
    ensures editing.Some? ==> forall i :: 0 <= i < |b.categories| ==>
      r.categories[i] == if b.categories[i].key == editing.value then values else b.categories[i]
    ensures editing.Some? ==> forall i :: 0 <= i < |b.tasks| ==>
      r.tasks[i] == if b.tasks[i].category == editing.value then b.tasks[i].(category := values.key) else b.tasks[i]
  {
    if editing.None? then Board(b.categories + [values], b.tasks)
    else
      var cs := seq(|b.categories|, i requires 0 <= i < |b.categories| =>
        if b.categories[i].key == editing.value then values else b.categories[i]);
      Board(cs, if values.key != editing.value then Reassign(b.tasks, editing.value, values.key) else b.tasks)
  }

  /** Renaming a column moves exactly its tasks to the new key and keeps
      every task on the board; saving under the same key leaves the tasks. */
  lemma RenameMovesTasks(b: Board, oldKey: string, values: Category, c: string)
    requires AllShown(b.tasks, b.categories)
    ensures var r := SaveCategory(b, Some(oldKey), values);
      AllShown(r.tasks, r.categories) &&
      (values.key == oldKey ==> r.tasks == b.tasks) &&
      (values.key != oldKey ==> (Count(r.tasks, c) ==
        (if c == oldKey then 0
         else if c == values.key then Count(b.tasks, values.key) + Count(b.tasks, oldKey)
         else Count(b.tasks, c))))
  {
    var r := SaveCategory(b, Some(oldKey), values);
    forall t | t in r.tasks ensures HasColumn(r.categories, t.category) {
      var k :| 0 <= k < |r.tasks| && r.tasks[k] == t;
      var u := b.tasks[k];
      assert u in b.tasks;
      var i :| 0 <= i < |b.categories| && b.categories[i].key == u.category;
      if u.category == oldKey {
        assert r.categories[i] == values;
      } else {
        assert r.categories[i] == b.categories[i];
      }
    }
    if values.key != oldKey {
      ReassignCounts(b.tasks, oldKey, values.key, c);
    }
  }

  /** Adding a column keeps the tasks and every task on the board. */
  lemma AddCategoryKeepsTasks(b: Board, values: Category)
    requires AllShown(b.tasks, b.categories)
    ensures var r := SaveCategory(b, None, values);
      r.tasks == b.tasks && AllShown(r.tasks, r.categories) && |r.categories| == |b.categories| + 1
  {
    var r := SaveCategory(b, None, values);
    forall t | t in r.tasks ensures HasColumn(r.categories, t.category) {
      var i :| 0 <= i < |b.categories| && b.categories[i].key == t.category;
      assert r.categories[i] == b.categories[i];
    }
  }

  // ---------------------------------------------------------------- status

  /** The first task with that id, or -1. */
  function TaskIndex(tasks: seq<Task>, id: int): (i: int)
    ensures -1 <= i < |tasks|
    ensures i >= 0 ==> tasks[i].id == id && forall k :: 0 <= k < i ==> tasks[k].id != id
    ensures i < 0 ==> forall k :: 0 <= k < |tasks| ==> tasks[k].id != id
  {
    if tasks == [] then -1
    else if tasks[0].id == id then 0
    else
      var i := TaskIndex(tasks[1..], id);
      if i < 0 then -1 else i + 1
  }

  function MarkDone(id: int, verifier: string): Task -> Task {
    (t: Task) => if t.id == id then t.(status := Completed, verifier := verifier) else t
  }

  function MarkPending(id: int): Task -> Task {
    (t: Task) => if t.id == id then t.(status := Pending) else t
  }

  /** Confirming completion: the tasks with that id become completed with
      the chosen verifier. */
  function Complete(tasks: seq<Task>, id: int, verifier: string): (r: seq<Task>)
    ensures |r| == |tasks|
    ensures forall i :: 0 <= i < |tasks| && tasks[i].id == id ==>
      r[i] == tasks[i].(status := Completed, verifier := verifier)
    ensures forall i :: 0 <= i < |tasks| && tasks[i].id != id ==> r[i] == tasks[i]
  {
    MapTasks(tasks, MarkDone(id, verifier))
  }

  /** Confirming un-completion: the tasks with that id become pending; their
      verifier stays. */
  function Reopen(tasks: seq<Task>, id: int): (r: seq<Task>)
    ensures |r| == |tasks|
    ensures forall i :: 0 <= i < |tasks| && tasks[i].id == id ==> r[i] == tasks[i].(status := Pending)
    ensures forall i :: 0 <= i < |tasks| && tasks[i].id != id ==> r[i] == tasks[i]
  {
    MapTasks(tasks, MarkPending(id))
  }

  /** Completing and then un-completing a pending task whose verifier is the
      one chosen gives the tasks back. */
  lemma ReopenUndoesComplete(tasks: seq<Task>, id: int, verifier: string)
    requires forall t :: t in tasks && t.id == id ==> t.status == Pending && t.verifier == verifier
    ensures Reopen(Complete(tasks, id, verifier), id) == tasks
  {
    var r := Reopen(Complete(tasks, id, verifier), id);
    forall i | 0 <= i < |tasks| ensures r[i] == tasks[i] {
      assert tasks[i] in tasks;
    }
  }

  /** Only the tasks with that id change, and they only in status and
      verifier: titles, columns, assignees and tags stay. */
  lemma CompleteTouchesOnlyThatTask(tasks: seq<Task>, id: int, verifier: string, i: int)
    requires 0 <= i < |tasks|
    ensures var t := Complete(tasks, id, verifier)[i];
      (tasks[i].id != id ==> t == tasks[i]) &&
      (tasks[i].id == id ==> (t.status == Completed && t.verifier == verifier &&
        t == tasks[i].(status := t.status, verifier := t.verifier)))
  {
  }

  function IsDone(t: Task): bool { t.status == Completed }

  function DoneIn(c: string): Task -> bool { (t: Task) => t.category == c && t.status == Completed }

  /** The kanban column's counts: its completed tasks and all its tasks. */
  function Column(tasks: seq<Task>, c: string): (r: (nat, nat))
    ensures r.0 <= r.1
  {
    var columnTasks := Filter(tasks, InCategory(c));
    (|Filter(columnTasks, IsDone)|, |columnTasks|)
  }

  /** The column counts the completed tasks of that category and all of
      them. */
  lemma ColumnCounts(tasks: seq<Task>, c: string)
    ensures Column(tasks, c) == (|Filter(tasks, DoneIn(c))|, Count(tasks, c))
  {
    FilterFilter(tasks, InCategory(c), IsDone, DoneIn(c));
  }

  /** Done in column c, or about to be completed under that id. */
  function DoneOrId(c: string, id: int): Task -> bool {
    (t: Task) => t.category == c && (t.status == Completed || t.id == id)
  }

  /** Completing a task keeps every column's total. */
  lemma CompleteKeepsTotals(tasks: seq<Task>, id: int, verifier: string, c: string)
    ensures Column(Complete(tasks, id, verifier), c).1 == Column(tasks, c).1
  {
    MapCount(tasks, MarkDone(id, verifier), InCategory(c), InCategory(c));
  }

  /** Completing a task never lowers a column's completed count. */
  lemma CompleteRaisesDone(tasks: seq<Task>, id: int, verifier: string, c: string)
    ensures Column(Complete(tasks, id, verifier), c).0 >= Column(tasks, c).0
  {
    MapCount(tasks, MarkDone(id, verifier), DoneIn(c), DoneOrId(c, id));
    FilterStricter(tasks, DoneIn(c), DoneOrId(c, id));
    var before := multiset(Filter(tasks, DoneIn(c)));
    var bound := multiset(Filter(tasks, DoneOrId(c, id)));
    assert bound == before + (bound - before);
    ColumnCounts(tasks, c);
    ColumnCounts(Complete(tasks, id, verifier), c);
  }

  /** The history line written for a status change. */
  function Entry(task: Task, action: Status, now: string): (e: HistoryEntry)
    ensures e.taskId == task.id && e.action == action && e.timestamp == now
    ensures e.description == (if action == Completed then "Đã hoàn thành" else "Đã hủy hoàn thành") +
      " công việc: \"" + task.title + "\""
  {
    HistoryEntry(task.id, task.title, task.category, task.assignee, action, now,
      (if action == Completed then "Đã hoàn thành" else "Đã hủy hoàn thành") + " công việc: \"" + task.title + "\"")
  }

  // ---------------------------------------------------------------- assignees

  /** The assignee list after Enter or the add button: the trimmed name is
      appended when it is non-empty and not yet listed. */
  function AddAssignee(list: seq<string>, name: string): (r: seq<string>)
    ensures Trim(name) != "" ==> Trim(name) in r
    ensures r == list || r == list + [Trim(name)]
  {
    var n := Trim(name);
    if n != "" && n !in list then list + [n] else list
  }

  predicate NoDuplicates(list: seq<string>) {
    forall i, j :: 0 <= i < j < |list| ==> list[i] != list[j]
  }

  /** The list keeps no duplicate and no empty name, and adding the same
      name twice adds it once. */
  lemma AddAssigneeKeeps(list: seq<string>, name: string)
    requires NoDuplicates(list) && "" !in list
    ensures NoDuplicates(AddAssignee(list, name)) && "" !in AddAssignee(list, name)
    ensures AddAssignee(AddAssignee(list, name), name) == AddAssignee(list, name)
  {
    var r := AddAssignee(list, name);
    if r != list {
      forall i, j | 0 <= i < j < |r| ensures r[i] != r[j] {
        if j == |list| {
          assert r[i] == list[i];
        }
      }
    }
  }

  // ---------------------------------------------------------------- tags

  predicate NonEmpty(s: string) { s != "" }

  function TrimAll(parts: seq<string>): (r: seq<string>)
    ensures |r| == |parts| && forall k :: 0 <= k < |parts| ==> r[k] == Trim(parts[k])
  {
    seq(|parts|, k requires 0 <= k < |parts| => Trim(parts[k]))
  }

  /** The saved tags: absent for an empty field, else the comma-separated
      pieces trimmed, with the empty ones dropped. */
  function ParseTags(text: string): (r: Option<seq<string>>)
    ensures r.None? <==> text == ""
    ensures r.Some? ==> |r.value| <= |Split(text, ',')|
    ensures r.Some? ==> forall t :: t in r.value ==> t != "" && t in TrimAll(Split(text, ','))
  {
    if text == "" then None else Some(Filter(TrimAll(Split(text, ',')), NonEmpty))
  }

  /** Loaded tags: none when absent. */
  function TagsOrEmpty(tags: Option<seq<string>>): seq<string> {
    if tags.Some? then tags.value else []
  }

  /** A tag as the parser produces it. */
  predicate CleanTag(t: string) {
    t != "" && Trim(t) == t && ',' !in t
  }

  /** Trimming only cuts characters off the ends. */
  lemma TrimIsInfix(s: string, c: char)
    ensures c in Trim(s) ==> c in s
  {
    var a := TrimStart(s);
    var r := TrimEnd(a);
    assert r == Trim(s);
    if c in r {
      var i :| 0 <= i < |r| && r[i] == c;
      var off := |s| - |a|;
      assert a[..|r|][i] == a[i];
      assert s[off..][i] == s[off + i];
      assert s[off + i] == c;
    }
  }

  /** Every parsed tag is non-empty, trimmed and comma-free. */
  lemma ParsedTagsClean(text: string)
    ensures forall t :: t in TagsOrEmpty(ParseTags(text)) ==> CleanTag(t)
  {
    if text != "" {
      var pieces := Split(text, ',');
      var trimmed := TrimAll(pieces);
      forall t | t in Filter(trimmed, NonEmpty) ensures CleanTag(t) {
        var k :| 0 <= k < |trimmed| && trimmed[k] == t;
        TrimIdempotent(pieces[k]);
        TrimIsInfix(pieces[k], ',');
      }
    }
  }

  /** The pieces the edit form shows, `tags.join(', ')`, split on ','. */
  function Spaced(tags: seq<string>): (r: seq<string>)
    requires tags != []
    ensures |r| == |tags| && r[0] == tags[0]
    ensures forall k :: 1 <= k < |tags| ==> r[k] == " " + tags[k]
  {
    seq(|tags|, k requires 0 <= k < |tags| => if k == 0 then tags[0] else " " + tags[k])
  }

  lemma {:induction false} JoinSpaced(tags: seq<string>)
    requires tags != []
    ensures JoinStr(tags, ", ") == Join(Spaced(tags), ',')
  {
    if |tags| > 1 {
      var rest := tags[1..];
      JoinSpaced(rest);
      var sp := Spaced(tags);
      assert sp[1..][0] == " " + rest[0];
      if |rest| == 1 {
        assert JoinStr(tags, ", ") == tags[0] + ", " + rest[0];
        assert Join(sp, ',') == tags[0] + [','] + Join(sp[1..], ',');
        assert Join(sp[1..], ',') == " " + rest[0];
      } else {
        var srest := Spaced(rest);
        assert sp[1..] == [" " + rest[0]] + srest[1..];
        assert Join(sp[1..], ',') == (" " + rest[0]) + [','] + Join(srest[1..], ',');
        assert Join(srest, ',') == rest[0] + [','] + Join(srest[1..], ',');
        assert JoinStr(tags, ", ") == tags[0] + ", " + JoinStr(rest, ", ");
      }
    }
  }

  /** A leading space does not survive trimming. */
  lemma TrimLeadingSpace(t: string)
    ensures Trim(" " + t) == Trim(t)
  {
    assert (" " + t)[1..] == t;
  }

  /** Editing a task and saving it again keeps its tags: the edit form shows
      them joined by ", ", and saving splits, trims and reloads them. */
  lemma TagsRoundTrip(tags: seq<string>)
    requires forall t :: t in tags ==> CleanTag(t)
    ensures TagsOrEmpty(ParseTags(JoinStr(tags, ", "))) == tags
  {
    if tags != [] {
      var sp := Spaced(tags);
      JoinSpaced(tags);
      forall k | 0 <= k < |sp| ensures ',' !in sp[k] {
        assert tags[k] in tags;
      }
      SplitJoin(sp, ',');
      var trimmed := TrimAll(sp);
      forall k | 0 <= k < |tags| ensures trimmed[k] == tags[k] {
        assert tags[k] in tags;
        if k > 0 {
          TrimLeadingSpace(tags[k]);
        }
      }
      assert trimmed == tags;
      assert tags[0] in tags;
      JoinCoversFirst(sp, ',');
      FilterKeepsAll(trimmed, NonEmpty);
      var text := JoinStr(tags, ", ");
      assert text != "" && Split(text, ',') == sp;
      assert ParseTags(text) == Some(Filter(trimmed, NonEmpty));
    }
  }

  // ---------------------------------------------------------------- calendar

  /** `generateCalendarDays`: every day from the start of the first week to
      the end of the last week, as day numbers. */
  method CalendarDays(start: int, end: int) returns (days: seq<int>)
    ensures |days| == if start <= end then end - start + 1 else 0
    ensures forall k :: 0 <= k < |days| ==> days[k] == start + k
  {
    days := [];
    var current := start;
    while current <= end
      invariant current == start + |days|
      invariant start > end ==> days == []
      invariant start <= end ==> current <= end + 1
      invariant forall k :: 0 <= k < |days| ==> days[k] == start + k
      decreases end - current
    {
      days := days + [current];
      current := current + 1;
    }
  }

  // ---------------------------------------------------------------- page

  /** The page's state. */
  class TasksPage {
    var tasks: seq<Task>
    var categories: seq<Category>
    var history: seq<HistoryEntry>
    var assignees: seq<string>

    constructor(loaded: seq<Task>, storedHistory: seq<HistoryEntry>, storedAssignees: seq<string>)
      ensures tasks == loaded && categories == BuiltInCategories
      ensures history == storedHistory && assignees == storedAssignees
    {
      tasks := loaded;
      categories := BuiltInCategories;
      history := storedHistory;
      assignees := storedAssignees;
    }

    /** `addToHistory`: the new line goes first. */
    method AddToHistory(task: Task, action: Status, now: string)
      modifies this
      ensures history == [Entry(task, action, now)] + old(history)
      ensures history[0].taskId == task.id
      ensures tasks == old(tasks) && categories == old(categories) && assignees == old(assignees)
    {
      history := [Entry(task, action, now)] + history;
    }

    /** `handleToggleComplete` after the dialog's OK, with `selected` the
        verifier picked in the dialog (it starts as the task's verifier). A
        pending task is refused without a verifier; otherwise the status
        flips and a history line is added. */
    method ToggleComplete(id: int, selected: string, now: string) returns (changed: bool)
      modifies this
      ensures var i := TaskIndex(old(tasks), id);
        changed == (i >= 0 && (old(tasks)[i].status == Completed || selected != "")) &&
        (!changed ==> tasks == old(tasks) && history == old(history)) &&
        (changed && old(tasks)[i].status == Pending ==>
          tasks == Complete(old(tasks), id, selected) &&
          history == [Entry(old(tasks)[i].(verifier := selected), Completed, now)] + old(history)) &&
        (changed && old(tasks)[i].status == Completed ==>
          tasks == Reopen(old(tasks), id) &&
          history == [Entry(old(tasks)[i], Pending, now)] + old(history))
      ensures categories == old(categories) && assignees == old(assignees)
    {
      var i := TaskIndex(tasks, id);
      if i < 0 {
        return false;
      }
      var task := tasks[i];
      if task.status == Pending {
        if selected == "" {
          return false;
        }
        tasks := Complete(tasks, id, selected);
        AddToHistory(task.(verifier := selected), Completed, now);
      } else {
        tasks := Reopen(tasks, id);
        AddToHistory(task, Pending, now);
      }
      changed := true;
    }

    /** `handleDeleteCategory`, with the 'Khác' column added when missing. */
    method DeleteCategoryColumn(key: string)
      modifies this
      ensures Board(categories, tasks) == DeleteCategory(Board(old(categories), old(tasks)), key)
      ensures AllShown(old(tasks), old(categories)) ==> AllShown(tasks, categories)
      ensures history == old(history) && assignees == old(assignees)
    {
      var b := DeleteCategory(Board(categories, tasks), key);
      if AllShown(tasks, categories) {
        DeleteKeepsTasksShown(Board(categories, tasks), key, Other);
      }
      categories := b.categories;
      tasks := b.tasks;
    }

    /** `handleSaveCategory` */
    method SaveCategoryForm(editing: Option<string>, values: Category)
      modifies this
      ensures Board(categories, tasks) == SaveCategory(Board(old(categories), old(tasks)), editing, values)
      ensures history == old(history) && assignees == old(assignees)
    {
      var b := SaveCategory(Board(categories, tasks), editing, values);
      categories := b.categories;
      tasks := b.tasks;
    }

    /** Adding an assignee from the selector. */
    method AddAssigneeName(name: string)
      modifies this
      ensures assignees == AddAssignee(old(assignees), name)
      ensures tasks == old(tasks) && categories == old(categories) && history == old(history)
    {
      var n := Trim(name);
      if n != "" && n !in assignees {
        assignees := assignees + [n];
      }
    }
  }
}
