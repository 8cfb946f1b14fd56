/** The system log page: the filters over the loaded activity log, the tree
    of logs grouped by day and then by module, and the counts shown above
    it. Timestamps are milliseconds. The day a timestamp falls on, as the
    `YYYY-MM-DD` text the page shows, depends on the clock's time zone and
    is a parameter (`dayKey`). An absent description or record name is "". */
module SystemLogs {
  import opened Lists
  import opened Text
  import opened Grouping

  datatype Log = Log(
    id: int,
    moduleName: string,
    action: string,
    description: string,
    userName: string,
    recordName: string,
    timestamp: int)

  /** A chosen date range: the start of its first day and the end of its
      last day, in milliseconds. */
  datatype Range = Range(start: int, end: int)

  /** The page's filters; an empty module, action or search text is off. */
  datatype Filters = Filters(moduleName: string, action: string, searchText: string, range: Option<Range>)

  /** The filters after `handleReset`. */
  const NoFilters := Filters("", "", "", None)

  // ---------------------------------------------------------------- filters

  predicate ModuleMatches(f: Filters, l: Log) {
    f.moduleName == "" || l.moduleName == f.moduleName
  }

  predicate ActionMatches(f: Filters, l: Log) {
    f.action == "" || l.action == f.action
  }

  /** Case-insensitive substring match on description, user name or record
      name. */
  predicate TextMatches(f: Filters, l: Log) {
    var q := Lower(f.searchText);
    f.searchText == "" ||
    Contains(Lower(l.description), q) || Contains(Lower(l.userName), q) || Contains(Lower(l.recordName), q)
  }

  /** Strictly after the start of the first day and strictly before the end
      of the last day. */
  predicate InRange(f: Filters, l: Log) {
    f.range.None? || (f.range.value.start < l.timestamp && l.timestamp < f.range.value.end)
  }

  /** Every active filter accepts the log. */
  predicate Passes(f: Filters, l: Log) {
    ModuleMatches(f, l) && ActionMatches(f, l) && TextMatches(f, l) && InRange(f, l)
  }

  // The tests of the chain's four steps; each step runs only when its filter
  // is set, and its test then accepts what that filter accepts.
  function ByModule(f: Filters): (test: Log -> bool)
    ensures f.moduleName != "" ==> forall l :: test(l) == ModuleMatches(f, l)
  {
    (l: Log) => l.moduleName == f.moduleName
  }

  function ByAction(f: Filters): (test: Log -> bool)
    ensures f.action != "" ==> forall l :: test(l) == ActionMatches(f, l)
  {
    (l: Log) => l.action == f.action
  }

  function BySearch(f: Filters): (test: Log -> bool)
    ensures f.searchText != "" ==> forall l :: test(l) == TextMatches(f, l)
  {
    (l: Log) => TextMatches(f, l)
  }

  function ByRange(f: Filters): (test: Log -> bool)
    ensures f.range.Some? ==> forall l :: test(l) == InRange(f, l)
  {
    (l: Log) => InRange(f, l)
  }

  /** `applyFilters`: the module, action, search and date filters, one
      after the other, each only when it is set. */
  function ApplyFilters(logs: seq<Log>, f: Filters): (r: seq<Log>)
    ensures forall l :: l in r <==> l in logs && Passes(f, l)
    ensures f == NoFilters ==> r == logs
    ensures |r| <= |logs|
  {
    var a := if f.moduleName != "" then Filter(logs, ByModule(f)) else logs;
    var b := if f.action != "" then Filter(a, ByAction(f)) else a;
    var c := if f.searchText != "" then Filter(b, BySearch(f)) else b;
    if f.range.Some? then Filter(c, ByRange(f)) else c
  }

  // The accepted-so-far tests of the chain, stage by stage.
  function UpToModule(f: Filters): Log -> bool { (l: Log) => ModuleMatches(f, l) }
  function UpToAction(f: Filters): Log -> bool { (l: Log) => ModuleMatches(f, l) && ActionMatches(f, l) }
  function UpToSearch(f: Filters): Log -> bool {
    (l: Log) => ModuleMatches(f, l) && ActionMatches(f, l) && TextMatches(f, l)
  }
  function PassesTest(f: Filters): Log -> bool { (l: Log) => Passes(f, l) }

  /** One stage of the chain: filtering by the accepted-so-far test and then,
      when the stage is on, by its own test, is filtering once by the next
      accepted-so-far test. */
  lemma Stage(logs: seq<Log>, acc: Log -> bool, on: bool, test: Log -> bool, next: Log -> bool)
    requires forall l :: next(l) == (acc(l) && (!on || test(l)))
    ensures (if on then Filter(Filter(logs, acc), test) else Filter(logs, acc)) == Filter(logs, next)
  {
    if on {
      FilterFilter(logs, acc, test, next);
    } else {
      FilterSameTest(logs, acc, next);
    }
  }

  /** The chain keeps exactly the logs every active filter accepts, in their
      original order. */
  lemma ApplyFiltersInOrder(logs: seq<Log>, f: Filters)
    ensures ApplyFilters(logs, f) == Filter(logs, PassesTest(f))
  {
    var a := if f.moduleName != "" then Filter(logs, ByModule(f)) else logs;
    var b := if f.action != "" then Filter(a, ByAction(f)) else a;
    var c := if f.searchText != "" then Filter(b, BySearch(f)) else b;
    if f.moduleName != "" {
      FilterSameTest(logs, ByModule(f), UpToModule(f));
    } else {
      FilterKeepsAll(logs, UpToModule(f));
    }
    assert a == Filter(logs, UpToModule(f));
    Stage(logs, UpToModule(f), f.action != "", ByAction(f), UpToAction(f));
    assert b == Filter(logs, UpToAction(f));
    Stage(logs, UpToAction(f), f.searchText != "", BySearch(f), UpToSearch(f));
    assert c == Filter(logs, UpToSearch(f));
    Stage(logs, UpToSearch(f), f.range.Some?, ByRange(f), PassesTest(f));
  }

  // ---------------------------------------------------------------- date order

  /** `a.localeCompare(b) < 0` on date keys: character by character, a
      proper prefix first. */
  predicate LexLess(a: string, b: string) {
    b != [] && (a == [] || a[0] < b[0] || (a[0] == b[0] && LexLess(a[1..], b[1..])))
  }

  lemma {:induction false} LexIrreflexive(a: string)
    ensures !LexLess(a, a)
  {
    if a != [] {
      LexIrreflexive(a[1..]);
    }
  }

  lemma {:induction false} LexTransitive(a: string, b: string, c: string)
    requires LexLess(a, b) && LexLess(b, c)
    ensures LexLess(a, c)
  {
    if a != [] && a[0] == b[0] && b[0] == c[0] {
      LexTransitive(a[1..], b[1..], c[1..]);
    }
  }

  lemma {:induction false} LexTotal(a: string, b: string)
    requires a != b
    ensures LexLess(a, b) || LexLess(b, a)
  {
    if a != [] && b != [] && a[0] == b[0] {
      assert a == [a[0]] + a[1..] && b == [b[0]] + b[1..];
      LexTotal(a[1..], b[1..]);
    }
  }

  /** Later dates first: each group comes before the groups with smaller
      keys. */
  predicate Descending(s: seq<Group<string, Log>>) {
    forall i, j :: 0 <= i < j < |s| ==> LexLess(s[j].key, s[i].key)
  }

  predicate DistinctKeys(s: seq<Group<string, Log>>) {
    forall i, j :: 0 <= i < j < |s| ==> s[i].key != s[j].key
  }

  /** Puts g before the first group with a smaller key. */
  function Insert(g: Group<string, Log>, s: seq<Group<string, Log>>): (r: seq<Group<string, Log>>)
    ensures multiset(r) == multiset(s) + multiset{g}
  {
    if s == [] then [g]
    else if LexLess(s[0].key, g.key) then [g] + s
    else
      assert s == [s[0]] + s[1..];
      [s[0]] + Insert(g, s[1..])
  }

  /** `.sort((a, b) => b[0].localeCompare(a[0]))`: the date groups by key,
      latest first. */
  function SortDesc(gs: seq<Group<string, Log>>): (r: seq<Group<string, Log>>)
    ensures multiset(r) == multiset(gs)
  {
    if gs == [] then []
    else
      assert gs == gs[..|gs| - 1] + [gs[|gs| - 1]];
      Insert(gs[|gs| - 1], SortDesc(gs[..|gs| - 1]))
  }

  /** A group above every group of a descending list can go in front. */
  lemma ConsDescending(h: Group<string, Log>, s: seq<Group<string, Log>>)
    requires Descending(s)
    requires forall x :: x in s ==> LexLess(x.key, h.key)
    ensures Descending([h] + s)
  {
    var r := [h] + s;
    forall i, j | 0 <= i < j < |r| ensures LexLess(r[j].key, r[i].key) {
      assert r[j] == s[j - 1];
      if i > 0 {
        assert r[i] == s[i - 1];
      }
    }
  }

  /** The first group of a descending list is above all the others. */
  lemma HeadAbove(s: seq<Group<string, Log>>)
    requires Descending(s) && s != []
    ensures forall x :: x in s[1..] ==> LexLess(x.key, s[0].key)
  {
    forall x | x in s[1..] ensures LexLess(x.key, s[0].key) {
      var k :| 0 <= k < |s[1..]| && s[1..][k] == x;
      assert s[k + 1] == x;
    }
  }

  lemma {:induction false} InsertDescending(g: Group<string, Log>, s: seq<Group<string, Log>>)
    requires Descending(s)
    requires forall x :: x in s ==> x.key != g.key
    ensures Descending(Insert(g, s))
  {
    if s == [] {
      assert Insert(g, s) == [g];
    } else {
      HeadAbove(s);
      assert s == [s[0]] + s[1..];
      if LexLess(s[0].key, g.key) {
        forall x | x in s ensures LexLess(x.key, g.key) {
          if x != s[0] {
            LexTransitive(x.key, s[0].key, g.key);
          }
        }
        ConsDescending(g, s);
      } else {
        var t := Insert(g, s[1..]);
        assert Descending(s[1..]);
        InsertDescending(g, s[1..]);
        assert s[0] in s;
        LexTotal(g.key, s[0].key);
        forall x | x in t ensures LexLess(x.key, s[0].key) {
          assert x in multiset(t);
        }
        ConsDescending(s[0], t);
      }
    }
  }

  /** Groups with distinct keys come out strictly latest first. */
  lemma {:induction false} SortDescending(gs: seq<Group<string, Log>>)
    requires DistinctKeys(gs)
    ensures Descending(SortDesc(gs))
  {
    if gs != [] {
      var n := |gs| - 1;
      var init := gs[..n];
      SortDescending(init);
      LastKeyIsNew(gs);
      InsertDescending(gs[n], SortDesc(init));
    }
  }

  /** With distinct keys, the last group's key is not among the sorted others. */
  lemma LastKeyIsNew(gs: seq<Group<string, Log>>)
    requires DistinctKeys(gs) && gs != []
    ensures forall x :: x in SortDesc(gs[..|gs| - 1]) ==> x.key != gs[|gs| - 1].key
  {
    var n := |gs| - 1;
    var init := gs[..n];
    forall x | x in SortDesc(init) ensures x.key != gs[n].key {
      assert x in multiset(init);
      var k :| 0 <= k < n && init[k] == x;
      assert gs[k] == x;
    }
  }

  lemma {:induction false} InsertFlatten(g: Group<string, Log>, s: seq<Group<string, Log>>)
    ensures multiset(Flatten(Insert(g, s))) == multiset(Flatten(s)) + multiset(g.rows)
  {
    if s == [] {
      assert Flatten([g]) == g.rows + Flatten([g][1..]);
    } else if LexLess(s[0].key, g.key) {
      assert ([g] + s)[1..] == s;
    } else {
      var t := Insert(g, s[1..]);
      InsertFlatten(g, s[1..]);
      assert ([s[0]] + t)[1..] == t;
    }
  }

  /** Sorting the groups moves rows only together with their group. */
  lemma {:induction false} SortFlatten(gs: seq<Group<string, Log>>)
    ensures multiset(Flatten(SortDesc(gs))) == multiset(Flatten(gs))
  {
    if gs != [] {
      var n := |gs| - 1;
      var init := gs[..n];
      SortFlatten(init);
      InsertFlatten(gs[n], SortDesc(init));
      InitLast(gs);
      FlattenSnoc(init, gs[n]);
    }
  }

  // ---------------------------------------------------------------- tree

  /** A date node of the tree: its day and its module groups. */
  datatype DateGroup = DateGroup(dateKey: string, modules: seq<Group<string, Log>>)

  /** The date key of a log. */
  function DayOf(dayKey: int -> string): Log -> string {
    (l: Log) => dayKey(l.timestamp)
  }

  function LogModule(l: Log): string {
    l.moduleName
  }

  /** Each date group with its rows grouped by module. */
  function ModuleTree(ds: seq<Group<string, Log>>): (t: seq<DateGroup>)
    ensures |t| == |ds|
  {
    seq(|ds|, i requires 0 <= i < |ds| => DateGroup(ds[i].key, GroupBy(ds[i].rows, LogModule)))
  }

  /** `getGroupedLogs`: the logs grouped by day, latest day first, and
      within each day by module. */
  function Tree(filtered: seq<Log>, dayKey: int -> string): (t: seq<DateGroup>)
    ensures multiset(TreeLogs(t)) == multiset(filtered)
    ensures forall i, j :: 0 <= i < j < |t| ==> LexLess(t[j].dateKey, t[i].dateKey)
  {
    var gs := GroupBy(filtered, DayOf(dayKey));
    ModuleTreeLogs(SortDesc(gs));
    SortFlatten(gs);
    GroupByFlatten(filtered, DayOf(dayKey));
    DateKeysDistinct(filtered, dayKey);
    SortDescending(gs);
    ModuleTree(SortDesc(gs))
  }

  /** The logs of the tree, node after node. */
  function TreeLogs(t: seq<DateGroup>): seq<Log> {
    if t == [] then [] else Flatten(t[0].modules) + TreeLogs(t[1..])
  }

  lemma {:induction false} ModuleTreeLogs(ds: seq<Group<string, Log>>)
    ensures multiset(TreeLogs(ModuleTree(ds))) == multiset(Flatten(ds))
  {
    if ds != [] {
      ModuleTreeLogs(ds[1..]);
      assert ModuleTree(ds)[1..] == ModuleTree(ds[1..]);
      GroupByFlatten(ds[0].rows, LogModule);
    }
  }

  /** Every filtered log appears in the tree exactly as often as among the
      filtered logs. */
  lemma TreeHoldsEachLogOnce(filtered: seq<Log>, dayKey: int -> string)
    ensures multiset(TreeLogs(Tree(filtered, dayKey))) == multiset(filtered)
  {
    var gs := GroupBy(filtered, DayOf(dayKey));
    ModuleTreeLogs(SortDesc(gs));
    SortFlatten(gs);
    GroupByFlatten(filtered, DayOf(dayKey));
  }

  /** The date groups before sorting have distinct keys. */
  lemma DateKeysDistinct(filtered: seq<Log>, dayKey: int -> string)
    ensures DistinctKeys(GroupBy(filtered, DayOf(dayKey)))
  {
    var gs := GroupBy(filtered, DayOf(dayKey));
    GroupKeysAreDistinctKeys(filtered, DayOf(dayKey));
    forall i, j | 0 <= i < j < |gs| ensures gs[i].key != gs[j].key {
      assert Keys(gs)[i] == gs[i].key && Keys(gs)[j] == gs[j].key;
    }
  }

  /** The days of the date nodes, in order. */
  function DateKeys(t: seq<DateGroup>): (r: seq<string>)
    ensures |r| == |t| && forall i :: 0 <= i < |t| ==> r[i] == t[i].dateKey
  {
    seq(|t|, i requires 0 <= i < |t| => t[i].dateKey)
  }

  /** The date nodes come strictly latest first, so no day has two nodes. */
  lemma TreeDatesDescending(filtered: seq<Log>, dayKey: int -> string)
    ensures var t := Tree(filtered, dayKey);
      forall i, j :: 0 <= i < j < |t| ==> LexLess(t[j].dateKey, t[i].dateKey)
  {
    var gs := GroupBy(filtered, DayOf(dayKey));
    DateKeysDistinct(filtered, dayKey);
    SortDescending(gs);
  }

  /** Reordering the groups keeps the set of keys. */
  lemma KeysOfPermutation(a: seq<Group<string, Log>>, b: seq<Group<string, Log>>, d: string)
    requires multiset(a) == multiset(b)
    ensures d in Keys(a) ==> d in Keys(b)
  {
    if d in Keys(a) {
      var i :| 0 <= i < |a| && Keys(a)[i] == d;
      assert a[i] in multiset(b);
      var j :| 0 <= j < |b| && b[j] == a[i];
      assert Keys(b)[j] == d;
    }
  }

  /** The days of the date nodes are exactly the days of the filtered logs. */
  lemma TreeDatesAreDays(filtered: seq<Log>, dayKey: int -> string, d: string)
    ensures d in DateKeys(Tree(filtered, dayKey)) <==> d in RowKeys(filtered, DayOf(dayKey))
  {
    var gs := GroupBy(filtered, DayOf(dayKey));
    var ds := SortDesc(gs);
    assert DateKeys(Tree(filtered, dayKey)) == Keys(ds);
    KeysOfPermutation(gs, ds, d);
    KeysOfPermutation(ds, gs, d);
    GroupKeysAreDistinctKeys(filtered, DayOf(dayKey));
    var days := RowKeys(filtered, DayOf(dayKey));
    if d in days {
      var k :| 0 <= k < |days| && days[k] == d;
      assert d in Distinct(days);
    }
    if d in Keys(gs) {
      var k :| 0 <= k < |Keys(gs)| && Keys(gs)[k] == d;
      assert d in days;
    }
  }

  /** The logs of one day, in filtered order. */
  function DayLogs(filtered: seq<Log>, dayKey: int -> string, d: string): seq<Log> {
    RowsWithKey(filtered, DayOf(dayKey), d)
  }

  /** Each sorted date group holds exactly its day's logs. */
  lemma SortedDayRows(filtered: seq<Log>, dayKey: int -> string, i: int)
    requires 0 <= i < |SortDesc(GroupBy(filtered, DayOf(dayKey)))|
    ensures var g := SortDesc(GroupBy(filtered, DayOf(dayKey)))[i];
      g.rows == DayLogs(filtered, dayKey, g.key)
  {
    var gs := GroupBy(filtered, DayOf(dayKey));
    var ds := SortDesc(gs);
    assert ds[i] in multiset(gs);
    var j :| 0 <= j < |gs| && gs[j] == ds[i];
    GroupRowsAreRowsWithKey(filtered, DayOf(dayKey));
  }

  /** Date node i holds exactly its day's logs, grouped by module in order
      of first appearance. */
  lemma DateGroupContents(filtered: seq<Log>, dayKey: int -> string, i: int)
    requires 0 <= i < |Tree(filtered, dayKey)|
    ensures var t := Tree(filtered, dayKey);
      var day := DayLogs(filtered, dayKey, t[i].dateKey);
      t[i].modules == GroupBy(day, LogModule) &&
      Keys(t[i].modules) == Distinct(RowKeys(day, LogModule))
  {
    var ds := SortDesc(GroupBy(filtered, DayOf(dayKey)));
    SortedDayRows(filtered, dayKey, i);
    GroupKeysAreDistinctKeys(ds[i].rows, LogModule);
  }

  /** A log in module node m of date node i is a filtered log of that day
      and of that module. */
  lemma TreePlacement(filtered: seq<Log>, dayKey: int -> string, i: int, m: int, l: Log)
    requires 0 <= i < |Tree(filtered, dayKey)|
    requires 0 <= m < |Tree(filtered, dayKey)[i].modules|
    requires l in Tree(filtered, dayKey)[i].modules[m].rows
    ensures var t := Tree(filtered, dayKey);
      l in filtered && dayKey(l.timestamp) == t[i].dateKey && l.moduleName == t[i].modules[m].key
  {
    var t := Tree(filtered, dayKey);
    var day := DayLogs(filtered, dayKey, t[i].dateKey);
    DateGroupContents(filtered, dayKey, i);
    GroupRowsAreRowsWithKey(day, LogModule);
    RowsWithKeyIff(day, LogModule, t[i].modules[m].key, l);
    RowsWithKeyIff(filtered, DayOf(dayKey), t[i].dateKey, l);
  }

  /** The second loop of `getGroupedLogs`: for each sorted date entry,
      fill its module map and push the date node. */
  method ModuleNodes(sorted: seq<Group<string, Log>>) returns (t: seq<DateGroup>)
    ensures t == ModuleTree(sorted)
  {
    t := [];
    var i := 0;
    while i < |sorted|
      invariant 0 <= i <= |sorted|
      invariant |t| == i
      invariant forall k :: 0 <= k < i ==> t[k] == DateGroup(sorted[k].key, GroupBy(sorted[k].rows, LogModule))
    {
      var modules := GroupRows(sorted[i].rows, LogModule);
      t := t + [DateGroup(sorted[i].key, modules)];
      i := i + 1;
    }
  }

  /** `getGroupedLogs`: fill the date map, sort its entries latest first,
      then build the date nodes. */
  method GroupedLogs(filtered: seq<Log>, dayKey: int -> string) returns (t: seq<DateGroup>)
    ensures t == Tree(filtered, dayKey)
  {
    var dateGroups := GroupRows(filtered, DayOf(dayKey));
    t := ModuleNodes(SortDesc(dateGroups));
  }

  // ---------------------------------------------------------------- stats

  datatype Stats = Stats(total: nat, create: nat, update: nat, delete: nat)

  function IsAction(a: string): Log -> bool { (l: Log) => l.action == a }

  /** The counts above the table. */
  function StatsOf(filtered: seq<Log>): Stats {
    Stats(|filtered|,
          |Filter(filtered, IsAction("CREATE"))|,
          |Filter(filtered, IsAction("UPDATE"))|,
          |Filter(filtered, IsAction("DELETE"))|)
  }

  /** One more log adds one to the total and one to the count of its own
      action, and leaves the other counts. */
  lemma StatsSnoc(logs: seq<Log>, l: Log)
    ensures var s := StatsOf(logs);
      var t := StatsOf(logs + [l]);
      t.total == s.total + 1 &&
      t.create == s.create + (if l.action == "CREATE" then 1 else 0) &&
      t.update == s.update + (if l.action == "UPDATE" then 1 else 0) &&
      t.delete == s.delete + (if l.action == "DELETE" then 1 else 0)
  {
    assert (logs + [l])[..|logs|] == logs;
  }

  /** The created, updated and deleted counts never add up to more than the
      total. */
  lemma {:induction false} StatsBound(logs: seq<Log>)
    ensures var s := StatsOf(logs); s.create + s.update + s.delete <= s.total
  {
    if logs != [] {
      var init := logs[..|logs| - 1];
      StatsBound(init);
      StatsSnoc(init, logs[|logs| - 1]);
      assert init + [logs[|logs| - 1]] == logs;
    }
  }

  /** A count is the number of logs with that action. */
  lemma StatsCountAction(logs: seq<Log>, l: Log)
    ensures l in logs && l.action == "CREATE" ==> StatsOf(logs).create > 0
    ensures StatsOf(logs).create == 0 ==> forall x :: x in logs ==> x.action != "CREATE"
  {
    if l in logs && l.action == "CREATE" {
      assert l in Filter(logs, IsAction("CREATE"));
    }
    if StatsOf(logs).create == 0 {
      assert forall x :: x in logs && x.action == "CREATE" ==> x in Filter(logs, IsAction("CREATE"));
    }
  }
}
