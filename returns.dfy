/** The returns page: return complaints entered by hand or imported from a
    marketplace sheet, each with a packer, a status taken from an editable
    status list, and a timeline of process notes. The page keeps the
    returns, the packer names and the status list in local storage and
    replaces them whole on every change. */
module Returns {
  import opened Text
  import opened Lists
  import Numbering

  const Completed: string := "completed"
  const Pending: string := "pending"

  /** One entry of a return's timeline. */
  datatype ProcessLog = ProcessLog(timestamp: string, note: string)

  /** A return; an absent packer is "", absent process notes are []. */
  datatype Return = Return(
    id: int,
    complaintCode: string,
    orderNumber: string,
    productName: string,
    complaintDate: string,
    status: string,
    reason: string,
    packer: string,
    processNotes: seq<ProcessLog>)

  function Ids(rs: seq<Return>): (ids: seq<int>)
    ensures |ids| == |rs| && forall k :: 0 <= k < |rs| ==> ids[k] == rs[k].id
  {
    seq(|rs|, k requires 0 <= k < |rs| => rs[k].id)
  }

  predicate UniqueIds(rs: seq<Return>) {
    forall a, b :: 0 <= a < b < |rs| ==> rs[a].id != rs[b].id
  }

  // ---------------------------------------------------------------- process notes

  /** `handleAddLog`: a blank note is refused; otherwise the trimmed note is
      appended with the current time. */
  function AddLog(logs: seq<ProcessLog>, note: string, timestamp: string): (r: Option<seq<ProcessLog>>)
    ensures r.None? <==> Trim(note) == ""
    ensures r.Some? ==>
      |r.value| == |logs| + 1 && r.value[..|logs|] == logs &&
      r.value[|logs|].note == Trim(note) && r.value[|logs|].note != "" &&
      r.value[|logs|].timestamp == timestamp
  {
    if Trim(note) == "" then None else Some(logs + [ProcessLog(timestamp, Trim(note))])
  }

  /** Removing the note just added restores the timeline. */
  lemma AddThenRemoveLog(logs: seq<ProcessLog>, note: string, timestamp: string)
    requires Trim(note) != ""
    ensures RemoveAt(AddLog(logs, note, timestamp).value, |logs|) == logs
  {
    var added := AddLog(logs, note, timestamp).value;
    assert added[..|logs|] == logs;
  }

  // ---------------------------------------------------------------- status values

  /** `s.replace(/\s+/g, rep)` with a one-character replacement: every
      maximal run of whitespace becomes rep. JavaScript's `\s` is the set
      String.prototype.trim removes, so the run starting at s[0] ends where
      TrimStart(s) begins. */
  function ReplaceSpaceRuns(s: string, rep: char): (r: string)
    ensures !IsJsSpace(rep) ==> forall i :: 0 <= i < |r| ==> !IsJsSpace(r[i])
    ensures s != [] && !IsJsSpace(s[0]) ==> r != [] && r[0] == s[0]
    decreases |s|
  {
    if s == [] then []
    else if IsJsSpace(s[0]) then [rep] + ReplaceSpaceRuns(TrimStart(s), rep)
    else [s[0]] + ReplaceSpaceRuns(s[1..], rep)
  }

  /** Text without whitespace is left as it is. */
  lemma {:induction false} NoSpaceUnchanged(s: string, rep: char)
    requires forall i :: 0 <= i < |s| ==> !IsJsSpace(s[i])
    ensures ReplaceSpaceRuns(s, rep) == s
  {
    if s != [] {
      NoSpaceUnchanged(s[1..], rep);
      assert s == [s[0]] + s[1..];
    }
  }

  /** The status value the dropdown derives from a text: trimmed, lower-cased,
      each whitespace run replaced by '_'. It has no whitespace, is already
      lower case, and is empty only for a blank text. */
  function StatusValue(text: string): (v: string)
    ensures forall i :: 0 <= i < |v| ==> !IsJsSpace(v[i]) && LowerChar(v[i]) == v[i]
    ensures v == "" <==> Trim(text) == ""
  {
    TrimStartFirst(text);
    SlugFacts(Trim(text), '_');
    ReplaceSpaceRuns(Lower(Trim(text)), '_')
  }

  /** A text lower-cased, with each whitespace run replaced by a character
      that is lower case and not whitespace, has no whitespace and is lower
      case; it is empty for an empty text and non-empty for a text starting
      with a non-space character. */
  lemma SlugFacts(t: string, rep: char)
    requires !IsJsSpace(rep) && LowerChar(rep) == rep
    ensures var v := ReplaceSpaceRuns(Lower(t), rep);
      (forall i :: 0 <= i < |v| ==> !IsJsSpace(v[i]) && LowerChar(v[i]) == v[i]) &&
      (t == [] ==> v == []) &&
      (t != [] && !IsJsSpace(t[0]) ==> v != [])
  {
    var l := Lower(t);
    forall i | 0 <= i < |l| ensures LowerChar(l[i]) == l[i] {
      LowerCharTwice(t[i]);
    }
    ReplaceKeepsLower(l, rep);
    if t != [] && !IsJsSpace(t[0]) {
      LowerCharKeepsNonSpace(t[0]);
      assert !IsJsSpace(l[0]);
    }
  }

  lemma LowerCharTwice(c: char)
    ensures LowerChar(LowerChar(c)) == LowerChar(c)
  {
  }

  /** Lower-casing never turns a character into whitespace. */
  lemma LowerCharKeepsNonSpace(c: char)
    requires !IsJsSpace(c)
    ensures !IsJsSpace(LowerChar(c))
  {
    if 'A' <= c <= 'Z' {
      assert 'a' <= LowerChar(c) <= 'z';
    }
  }

  /** Replacing whitespace runs in lower-case text by a lower-case
      replacement gives lower-case text. */
  lemma {:induction false} ReplaceKeepsLower(s: string, rep: char)
    requires forall i :: 0 <= i < |s| ==> LowerChar(s[i]) == s[i]
    requires LowerChar(rep) == rep
    ensures var r := ReplaceSpaceRuns(s, rep);
      forall i :: 0 <= i < |r| ==> LowerChar(r[i]) == r[i]
    decreases |s|
  {
    if s == [] {
    } else if IsJsSpace(s[0]) {
      var t := TrimStart(s);
      assert forall i :: 0 <= i < |t| ==> t[i] == s[|s| - |t| + i];
      ReplaceKeepsLower(t, rep);
      assert ReplaceSpaceRuns(s, rep) == [rep] + ReplaceSpaceRuns(t, rep);
    } else {
      ReplaceKeepsLower(s[1..], rep);
      assert ReplaceSpaceRuns(s, rep) == [s[0]] + ReplaceSpaceRuns(s[1..], rep);
    }
  }

  /** A non-blank trimmed text starts with a non-space character. */
  lemma TrimStartFirst(s: string)
    ensures Trim(s) != "" ==> !IsJsSpace(Trim(s)[0])
  {
    var a := TrimStart(s);
    var t := Trim(s);
    if t != "" {
      assert t == a[..|t|];
    }
  }

  /** A value used as a text again derives itself. */
  lemma StatusValueStable(text: string)
    ensures StatusValue(StatusValue(text)) == StatusValue(text)
  {
    var v := StatusValue(text);
    NoSpaceTrimmed(v);
    assert Lower(v) == v;
    NoSpaceUnchanged(v, '_');
  }

  /** Text without whitespace is its own trim. */
  lemma NoSpaceTrimmed(s: string)
    requires forall i :: 0 <= i < |s| ==> !IsJsSpace(s[i])
    ensures Trim(s) == s
  {
    if s != [] {
      assert TrimStart(s) == s;
      assert TrimEnd(s) == s;
    }
  }

  /** The status value the settings dialog derives, as intended: like the
      dropdown's, with '-' for each whitespace run. */
  function SettingsStatusValue(text: string): (v: string)
    ensures forall i :: 0 <= i < |v| ==> !IsJsSpace(v[i])
    ensures v == "" <==> Trim(text) == ""
  {
    TrimStartFirst(text);
    SlugFacts(Trim(text), '-');
    ReplaceSpaceRuns(Lower(Trim(text)), '-')
  }

  /** `s.replace(/\\s+/g, rep)`: the pattern is a backslash followed by one or
      more 's', so each such run becomes rep and whitespace is untouched. */
  function ReplaceBackslashRuns(s: string, rep: string): (r: string)
    ensures rep != "" ==> (r == "" <==> s == "")
    decreases |s|
  {
    if s == [] then []
    else if |s| >= 2 && s[0] == '\\' && s[1] == 's' then rep + ReplaceBackslashRuns(DropLeading(s[1..], 's'), rep)
    else [s[0]] + ReplaceBackslashRuns(s[1..], rep)
  }

  /** s without its leading run of c. */
  function DropLeading(s: string, c: char): (r: string)
    ensures |r| <= |s| && r == s[|s| - |r|..]
    ensures r != [] ==> r[0] != c
  {
    if s != [] && s[0] == c then DropLeading(s[1..], c) else s
  }

  /** The value the settings dialog derives, as written. */
  function SettingsStatusValueAsWritten(text: string): (v: string)
    ensures v == "" <==> Trim(text) == ""
  {
    ReplaceBackslashRuns(Lower(Trim(text)), "-")
  }

  /** Text without a backslash passes the written pattern unchanged. */
  lemma {:induction false} NoBackslashUnchanged(s: string, rep: string)
    requires forall i :: 0 <= i < |s| ==> s[i] != '\\'
    ensures ReplaceBackslashRuns(s, rep) == s
  {
    if s != [] {
      NoBackslashUnchanged(s[1..], rep);
      assert s == [s[0]] + s[1..];
    }
  }

  /** As written, a text without a backslash keeps its inner whitespace in
      the derived value: "On hold" gives "on hold", where "on-hold" was meant. */
  lemma SettingsValueKeepsSpaces(text: string)
    requires forall i :: 0 <= i < |text| ==> text[i] != '\\'
    ensures SettingsStatusValueAsWritten(text) == Lower(Trim(text))
  {
    var t := Trim(text);
    assert forall c :: c in t ==> c in text by {
      var a := TrimStart(text);
      assert t == a[..|t|];
    }
    var l := Lower(t);
    forall i | 0 <= i < |l| ensures l[i] != '\\' {
      assert t[i] in t;
    }
    NoBackslashUnchanged(l, "-");
  }

  /** The label "On hold" gives the value "on hold", space included, where
      the dropdown would give "on_hold". */
  lemma OnHoldKeepsSpace(s: string)
    requires s == "On hold"
    ensures SettingsStatusValueAsWritten(s) == "on hold"
    ensures IsJsSpace(SettingsStatusValueAsWritten(s)[2])
  {
    OnHoldTrimmed(s);
    OnHoldLowered(s);
    SettingsValueKeepsSpaces(s);
  }

  lemma OnHoldTrimmed(s: string)
    requires s == "On hold"
    ensures Trim(s) == s
  {
    assert TrimStart(s) == s;
    assert TrimEnd(s) == s;
  }

  lemma OnHoldLowered(s: string)
    requires s == "On hold"
    ensures Lower(s) == "on hold"
  {
    assert Lower(s)[0] == LowerChar('O') == 'o';
  }

  // ---------------------------------------------------------------- status list

  datatype StatusOption = StatusOption(value: string, caption: string, color: string)

  function Values(list: seq<StatusOption>): (vs: seq<string>)
    ensures |vs| == |list| && forall k :: 0 <= k < |list| ==> vs[k] == list[k].value
  {
    seq(|list|, k requires 0 <= k < |list| => list[k].value)
  }

  predicate DistinctValues(list: seq<StatusOption>) {
    forall a, b :: 0 <= a < b < |list| ==> list[a].value != list[b].value
  }

  datatype AddStatusOutcome = BlankLabel | AlreadyExists | StatusAdded

  /** Adding a status: a blank text does nothing, a derived value already in
      the list is refused, otherwise the option is appended with the trimmed
      text. `value` is the value the caller derived from the text. */
  function AddStatus(list: seq<StatusOption>, text: string, value: string, color: string)
    : (r: (seq<StatusOption>, AddStatusOutcome))
    ensures r.1 == BlankLabel <==> Trim(text) == ""
    ensures r.1 == AlreadyExists <==> Trim(text) != "" && value in Values(list)
    ensures r.1 != StatusAdded ==> r.0 == list
    ensures r.1 == StatusAdded ==>
      |r.0| == |list| + 1 && r.0[..|list|] == list &&
      r.0[|list|] == StatusOption(value, Trim(text), color) &&
      forall k :: 0 <= k < |list| ==> list[k].value != value
  {
    if Trim(text) == "" then (list, BlankLabel)
    else if value in Values(list) then (list, AlreadyExists)
    else (list + [StatusOption(value, Trim(text), color)], StatusAdded)
  }

  /** A blank label changes nothing, a value already listed is refused, and
      otherwise the option is appended; the values stay distinct, and the
      value is then in the list. */
  lemma AddStatusKeepsDistinct(list: seq<StatusOption>, text: string, value: string, color: string)
    requires DistinctValues(list)
    ensures var (out, o) := AddStatus(list, text, value, color);
      (o == BlankLabel <==> Trim(text) == "") &&
      (o == AlreadyExists <==> Trim(text) != "" && exists k :: 0 <= k < |list| && list[k].value == value) &&
      (o != StatusAdded ==> out == list) &&
      (o == StatusAdded ==> out == list + [StatusOption(value, Trim(text), color)]) &&
      DistinctValues(out) && (Trim(text) != "" ==> value in Values(out))
  {
    var r := AddStatus(list, text, value, color);
    if r.1 == StatusAdded {
      forall a | 0 <= a < |list| ensures list[a].value != value {
        assert Values(list)[a] == list[a].value;
      }
      assert Values(r.0)[|list|] == value;
    } else if r.1 == AlreadyExists {
      var k :| 0 <= k < |list| && Values(list)[k] == value;
    }
  }

  // ---------------------------------------------------------------- packers

  /** A packer name is added, trimmed, when it is not blank and not yet listed. */
  function AddPacker(packers: seq<string>, name: string): (r: seq<string>)
    ensures Trim(name) != "" && Trim(name) !in packers ==> r == packers + [Trim(name)]
    ensures Trim(name) == "" || Trim(name) in packers ==> r == packers
  {
    var t := Trim(name);
    if t != "" && t !in packers then packers + [t] else packers
  }

  /** `packerList.filter(p => p !== name)`. */
  function RemovePacker(packers: seq<string>, name: string): (r: seq<string>)
    ensures forall p :: p in r <==> p in packers && p != name
  {
    Filter(packers, (p: string) => p != name)
  }

  predicate DistinctNonBlank(packers: seq<string>) {
    (forall a, b :: 0 <= a < b < |packers| ==> packers[a] != packers[b]) &&
    forall a :: 0 <= a < |packers| ==> Trim(packers[a]) != ""
  }

  /** The packer list stays free of blanks and repeats. */
  lemma AddPackerKeepsDistinct(packers: seq<string>, name: string)
    requires DistinctNonBlank(packers)
    ensures DistinctNonBlank(AddPacker(packers, name))
  {
    var t := Trim(name);
    if t != "" && t !in packers {
      TrimIdempotent(name);
      AppendFresh(packers, t);
    }
  }

  lemma AppendFresh(packers: seq<string>, t: string)
    requires DistinctNonBlank(packers) && Trim(t) != "" && t !in packers
    ensures DistinctNonBlank(packers + [t])
  {
    var r := packers + [t];
    forall a, b | 0 <= a < b < |r| ensures r[a] != r[b] {
      assert r[a] == packers[a];
      if b == |packers| {
        assert packers[a] in packers;
      } else {
        assert r[b] == packers[b];
      }
    }
    forall a | 0 <= a < |r| ensures Trim(r[a]) != "" {
      if a < |packers| {
        assert r[a] == packers[a];
      }
    }
  }

  // ---------------------------------------------------------------- statuses of returns

  /** The status dropdown: completing a return that has no packer is refused;
      otherwise every return with the record's id takes the new status. */
  function ChangeStatus(rs: seq<Return>, record: Return, newStatus: string): (r: Option<seq<Return>>)
    ensures r.None? <==> newStatus == Completed && record.packer == ""
    ensures r.Some? ==>
      |r.value| == |rs| &&
      forall k :: 0 <= k < |rs| ==>
        r.value[k] == if rs[k].id == record.id then rs[k].(status := newStatus) else rs[k]
  {
    if newStatus == Completed && record.packer == "" then None
    else Some(seq(|rs|, k requires 0 <= k < |rs| => if rs[k].id == record.id then rs[k].(status := newStatus) else rs[k]))
  }

  /** A return completed through the dropdown has a packer, when ids are
      unique and the record shown is the listed one. */
  lemma CompletedHasPacker(rs: seq<Return>, i: int, newStatus: string)
    requires UniqueIds(rs) && 0 <= i < |rs|
    requires ChangeStatus(rs, rs[i], newStatus).Some?
    ensures var out := ChangeStatus(rs, rs[i], newStatus).value;
      out[i].status == newStatus && (newStatus == Completed ==> out[i].packer != "") &&
      forall k :: 0 <= k < |rs| && k != i ==> out[k] == rs[k]
  {
  }

  /** The active tab: returns not completed. */
  function Active(rs: seq<Return>): seq<Return> {
    Filter(rs, (r: Return) => r.status != Completed)
  }

  /** The history tab: completed returns. */
  function History(rs: seq<Return>): seq<Return> {
    Filter(rs, (r: Return) => r.status == Completed)
  }

  /** Every return is on exactly one of the two tabs. */
  lemma ActiveHistoryPartition(rs: seq<Return>)
    ensures multiset(Active(rs)) + multiset(History(rs)) == multiset(rs)
    ensures forall r :: r in rs ==> (r in Active(rs) <==> r !in History(rs))
  {
    FilterSplit(rs, (r: Return) => r.status != Completed, (r: Return) => r.status == Completed);
  }

  // ---------------------------------------------------------------- create

  /** The fields of the return form; an empty packer is "". */
  datatype ReturnForm = ReturnForm(
    complaintCode: string,
    orderNumber: string,
    productName: string,
    complaintDate: string,
    status: string,
    reason: string,
    packer: string)

  function FromForm(id: int, f: ReturnForm, logs: seq<ProcessLog>): Return {
    Return(id, f.complaintCode, f.orderNumber, f.productName, f.complaintDate, f.status, f.reason, f.packer, logs)
  }

  /** Create: the new return takes the next id and goes first. */
  function CreateReturn(rs: seq<Return>, f: ReturnForm, logs: seq<ProcessLog>): (out: seq<Return>)
    ensures |out| == |rs| + 1 && out[1..] == rs
    ensures out[0] == FromForm(out[0].id, f, logs)
    ensures forall k :: 0 <= k < |rs| ==> rs[k].id < out[0].id
    ensures rs == [] ==> out[0].id == 1
  {
    [FromForm(NextId(Ids(rs)), f, logs)] + rs
  }

  /** A created return is first, above every id, and ids stay unique. */
  lemma CreateKeepsIdsUnique(rs: seq<Return>, f: ReturnForm, logs: seq<ProcessLog>)
    requires UniqueIds(rs)
    ensures var out := CreateReturn(rs, f, logs);
      |out| == |rs| + 1 && out[1..] == rs && UniqueIds(out) &&
      forall k :: 0 <= k < |rs| ==> rs[k].id < out[0].id
  {
    var out := CreateReturn(rs, f, logs);
    assert out[1..] == rs;
    forall a, b | 0 <= a < b < |out| ensures out[a].id != out[b].id {
      if a == 0 {
        assert Ids(rs)[b - 1] == rs[b - 1].id;
      } else {
        assert out[a] == rs[a - 1] && out[b] == rs[b - 1];
      }
    }
  }

  /** Edit: every return with the edited one's id takes the form's fields,
      keeping its id. */
  function EditReturn(rs: seq<Return>, editing: Return, f: ReturnForm, logs: seq<ProcessLog>): (out: seq<Return>)
    ensures |out| == |rs|
    ensures forall k :: 0 <= k < |rs| ==>
      out[k] == if rs[k].id == editing.id then FromForm(editing.id, f, logs) else rs[k]
  {
    seq(|rs|, k requires 0 <= k < |rs| => if rs[k].id == editing.id then FromForm(editing.id, f, logs) else rs[k])
  }

  // ---------------------------------------------------------------- import

  /** A sheet row with its cells resolved over the column-name fallbacks;
      a missing cell is "". */
  datatype ReturnRow = ReturnRow(
    complaintCode: string,
    orderNumber: string,
    productName: string,
    complaintDate: string,
    status: string,
    reason: string)

  /** The status an imported return takes. */
  function ImportedStatus(status: string): (r: string)
    ensures r == Completed || r == Pending
  {
    if Contains(status, "Hoàn thành") || Contains(status, "Hoan thanh") ||
       Contains(status, "Refund rejected") || Contains(status, "Complete")
    then Completed else Pending
  }

  /** The return a row becomes. `autoCode` is the code given to a row without
      one, and `day` formats a cell's time as a day. */
  function ImportedReturn(row: ReturnRow, id: int, today: string, day: string -> string, autoCode: string): Return {
    Return(id,
           if row.complaintCode != "" then row.complaintCode else autoCode,
           row.orderNumber, row.productName,
           if row.complaintDate != "" then day(row.complaintDate) else today,
           ImportedStatus(if row.status != "" then row.status else Pending),
           row.reason, "", [])
  }

  function HasProduct(): ReturnRow -> bool {
    (row: ReturnRow) => row.productName != ""
  }

  function Maker(today: string, day: string -> string, autoCode: string): (ReturnRow, int) -> Return {
    (row: ReturnRow, id: int) => ImportedReturn(row, id, today, day, autoCode)
  }

  datatype ImportOutcome = NothingFound | Imported(count: nat)

  /** The import on the return list: the new returns go before the old ones,
      and the list is kept when no row has a product name. */
  function ImportReturns(rs: seq<Return>, rows: seq<ReturnRow>, today: string, day: string -> string, autoCode: string)
    : (r: (seq<Return>, ImportOutcome))
    ensures r.1 == NothingFound <==> forall row :: row in rows ==> row.productName == ""
    ensures r.1 == NothingFound ==> r.0 == rs
    ensures r.1.Imported? ==> 0 < r.1.count <= |rows| && |r.0| == r.1.count + |rs| && r.0[r.1.count..] == rs
  {
    var created := Numbering.Build(rows, HasProduct(), Maker(today, day, autoCode), NextId(Ids(rs))).0;
    Numbering.BuildIsSelected(rows, HasProduct(), Maker(today, day, autoCode), NextId(Ids(rs)));
    Numbering.SelectedEmptyIff(rows, HasProduct());
    if created == [] then (rs, NothingFound) else (created + rs, Imported(|created|))
  }

  /** One return per row with a product name, in row order, numbered from the
      next id, before the old returns; rows without a product name are
      skipped, and the returns of such rows are pending or completed as their
      status says. */
  lemma ImportIsRowsWithProduct(rs: seq<Return>, rows: seq<ReturnRow>, today: string, day: string -> string, autoCode: string)
    ensures var (out, o) := ImportReturns(rs, rows, today, day, autoCode);
      var sel := Numbering.Selected(rows, HasProduct());
      var next := NextId(Ids(rs));
      (forall row :: row in sel <==> row in rows && row.productName != "") &&
      (sel == [] ==> out == rs && o == NothingFound) &&
      (sel != [] ==>
        o == Imported(|sel|) && |out| == |sel| + |rs| && out[|sel|..] == rs &&
        forall k :: 0 <= k < |sel| ==>
          out[k] == ImportedReturn(sel[k], next + k, today, day, autoCode) && out[k].productName != "")
  {
    var mk := Maker(today, day, autoCode);
    var next := NextId(Ids(rs));
    var sel := Numbering.Selected(rows, HasProduct());
    forall row ensures row in sel <==> row in rows && row.productName != "" {
      Numbering.SelectedIff(rows, HasProduct(), row);
    }
    Numbering.BuildIsSelected(rows, HasProduct(), mk, next);
    var created := Numbering.Build(rows, HasProduct(), mk, next).0;
    assert ImportReturns(rs, rows, today, day, autoCode) ==
      if created == [] then (rs, NothingFound) else (created + rs, Imported(|created|));
    if sel != [] {
      PrependImported(created, rs, sel, next, today, day, autoCode);
    }
  }

  /** Returns built by Maker from rows with a product name, placed before the
      old returns. */
  lemma PrependImported(created: seq<Return>, rs: seq<Return>, sel: seq<ReturnRow>, next: int,
                        today: string, day: string -> string, autoCode: string)
    requires |created| == |sel|
    requires forall k :: 0 <= k < |sel| ==> created[k] == Maker(today, day, autoCode)(sel[k], next + k)
    requires forall row :: row in sel ==> row.productName != ""
    ensures var out := created + rs;
      |out| == |sel| + |rs| && out[|sel|..] == rs &&
      forall k :: 0 <= k < |sel| ==>
        out[k] == ImportedReturn(sel[k], next + k, today, day, autoCode) && out[k].productName != ""
  {
    var out := created + rs;
    assert out[|sel|..] == rs;
    forall k | 0 <= k < |sel|
      ensures out[k] == ImportedReturn(sel[k], next + k, today, day, autoCode) && out[k].productName != ""
    {
      assert out[k] == created[k];
      assert sel[k] in sel;
    }
  }

  /** A return is imported as completed exactly when its sheet status
      mentions completion or a rejected refund. */
  lemma ImportedCompletedIff(row: ReturnRow, id: int, today: string, day: string -> string, autoCode: string)
    ensures ImportedReturn(row, id, today, day, autoCode).status == Completed <==>
      Contains(row.status, "Hoàn thành") || Contains(row.status, "Hoan thanh") ||
      Contains(row.status, "Refund rejected") || Contains(row.status, "Complete")
  {
    if row.status == "" {
      assert !Contains(Pending, "Complete") by {
        assert !OccursAt(Pending, "Complete", 0);
      }
    }
  }

  // ---------------------------------------------------------------- page

  /** The page state: the returns, the packer names, the status list and the
      timeline being edited in the form. */
  class ReturnsPage {
    var records: seq<Return>
    var packers: seq<string>
    var statuses: seq<StatusOption>
    var logs: seq<ProcessLog>

    constructor(loaded: seq<Return>, loadedPackers: seq<string>, loadedStatuses: seq<StatusOption>)
      ensures records == loaded && packers == loadedPackers && statuses == loadedStatuses && logs == []
    {
      records := loaded;
      packers := loadedPackers;
      statuses := loadedStatuses;
      logs := [];
    }

    /** `handleAddLog`. */
    method AddNote(note: string, timestamp: string) returns (added: bool)
      modifies this
      ensures added <==> Trim(note) != ""
      ensures logs == if added then AddLog(old(logs), note, timestamp).value else old(logs)
      ensures records == old(records) && packers == old(packers) && statuses == old(statuses)
    {
      var r := AddLog(logs, note, timestamp);
      added := r.Some?;
      if added {
        logs := r.value;
      }
    }

    /** `handleRemoveLog`. */
    method RemoveNote(i: int)
      modifies this
      ensures logs == RemoveAt(old(logs), i)
      ensures records == old(records) && packers == old(packers) && statuses == old(statuses)
    {
      logs := RemoveAt(logs, i);
    }

    /** `handleSubmit` in create mode; the form's timeline is then cleared. */
    method Create(f: ReturnForm)
      modifies this
      ensures records == CreateReturn(old(records), f, old(logs)) && logs == []
      ensures packers == old(packers) && statuses == old(statuses)
    {
      records := [FromForm(NextId(Ids(records)), f, logs)] + records;
      logs := [];
    }

    /** The packer quick-add. */
    method AddPackerName(name: string)
      modifies this
      ensures packers == AddPacker(old(packers), name)
      ensures records == old(records) && statuses == old(statuses) && logs == old(logs)
    {
      var t := Trim(name);
      if t != "" && t !in packers {
        packers := packers + [t];
      }
    }

    /** The packer delete button. */
    method RemovePackerName(name: string)
      modifies this
      ensures packers == RemovePacker(old(packers), name)
      ensures records == old(records) && statuses == old(statuses) && logs == old(logs)
    {
      packers := RemovePacker(packers, name);
    }

    /** The status dropdown's change handler. */
    method SetStatus(record: Return, newStatus: string) returns (changed: bool)
      modifies this
      ensures var r := ChangeStatus(old(records), record, newStatus);
        changed == r.Some? && records == if changed then r.value else old(records)
      ensures packers == old(packers) && statuses == old(statuses) && logs == old(logs)
    {
      var r := ChangeStatus(records, record, newStatus);
      changed := r.Some?;
      if changed {
        records := r.value;
      }
    }

    /** The status quick-add in the dropdown, blue. */
    method AddStatusFromDropdown(text: string) returns (outcome: AddStatusOutcome)
      modifies this
      ensures (statuses, outcome) == AddStatus(old(statuses), text, StatusValue(text), "blue")
      ensures records == old(records) && packers == old(packers) && logs == old(logs)
    {
      var r := AddStatus(statuses, text, StatusValue(text), "blue");
      statuses, outcome := r.0, r.1;
    }

    /** The status add in the settings dialog; `color` is the randomly drawn
        colour. */
    method AddStatusFromSettings(text: string, color: string) returns (outcome: AddStatusOutcome)
      modifies this
      ensures (statuses, outcome) == AddStatus(old(statuses), text, SettingsStatusValue(text), color)
      ensures records == old(records) && packers == old(packers) && logs == old(logs)
    {
      var r := AddStatus(statuses, text, SettingsStatusValue(text), color);
      statuses, outcome := r.0, r.1;
    }

    /** `handleImportExcel` after the sheet has been read: the rows' `forEach`
        with `startId++`. */
    method Import(rows: seq<ReturnRow>, today: string, day: string -> string, autoCode: string)
      returns (outcome: ImportOutcome)
      modifies this
      ensures (records, outcome) == ImportReturns(old(records), rows, today, day, autoCode)
      ensures packers == old(packers) && statuses == old(statuses) && logs == old(logs)
    {
      var created, skipped := Numbering.BuildRecords(rows, HasProduct(), Maker(today, day, autoCode), NextId(Ids(records)));
      if |created| == 0 {
        outcome := NothingFound;
      } else {
        records := created + records;
        outcome := Imported(|created|);
      }
    }
  }
}
