/** The pickup scanner of the desktop back end: tracking numbers loaded from the
    carriers' sheets, and the history of numbers handed to a courier. A scan is
    checked against both lists in a fixed order and, on success, appends one
    history entry. Reading and writing the sheets, and the clock, are outside the
    model: the scan time is a parameter. */
module Pickup {
  import opened Text
  import opened Lists

  /** One row of the loaded tracking data; absent columns are "" (0 for the amount). */
  datatype TrackingRow = TrackingRow(
    trackingNumber: string, orderNumber: string, source: string, file: string,
    items: string, shippingProvider: string, totalAmount: int)

  datatype HistoryEntry = HistoryEntry(
    trackingNumber: string, orderNumber: string, source: string, file: string,
    scannedAt: string, items: string, shippingProvider: string, totalAmount: int,
    status: string)

  /** The `errorType` of a refused scan. */
  datatype ScanError = Empty | NoData | Duplicate | NotFound

  datatype ScanReply =
    | Refused(error: ScanError)
    | Scanned(trackingNumber: string, source: string, file: string, scannedAt: string, orderNumber: string)

  /** `normalizeStr`: null or undefined becomes "", anything else is trimmed. */
  function NormalizeStr(value: Option<string>): (r: string)
    ensures value.None? ==> r == ""
    ensures value.Some? ==> |r| <= |value.value| && (r == "" <==> AllJsSpace(value.value))
  {
    match value
    case None => ""
    case Some(s) => TrimEmptyIff(s); Trim(s)
  }

  predicate InHistory(history: seq<HistoryEntry>, t: string) {
    exists k :: 0 <= k < |history| && history[k].trackingNumber == t
  }

  /** `pickupTrackingData.filter(d => d.trackingNumber === trimmed)` */
  function Matches(data: seq<TrackingRow>, t: string): (r: seq<TrackingRow>)
    ensures forall k :: 0 <= k < |r| ==> r[k].trackingNumber == t && r[k] in data
    ensures forall k :: 0 <= k < |data| && data[k].trackingNumber == t ==> data[k] in r
  {
    if data == [] then []
    else
      var rest := Matches(data[1..], t);
      assert forall k :: 1 <= k < |data| ==> data[k] == data[1..][k - 1];
      if data[0].trackingNumber == t then [data[0]] + rest else rest
  }

  function NumberIs(t: string): TrackingRow -> bool {
    (d: TrackingRow) => d.trackingNumber == t
  }

  /** The matches are the rows carrying the number, in load order and with
      their repetitions: the library filter of the rows. */
  lemma {:induction false} MatchesIsFilter(data: seq<TrackingRow>, t: string)
    ensures Matches(data, t) == Filter(data, NumberIs(t))
  {
    if data != [] {
      MatchesIsFilter(data[1..], t);
      FilterFront(data, NumberIs(t));
    }
  }

  /** The row a search for t wants: one carrying t, from Shopee when `shopee`. */
  predicate Wanted(d: TrackingRow, t: string, shopee: bool) {
    d.trackingNumber == t && (shopee ==> d.source == "Shopee")
  }

  /** The index of the first wanted row in load order, or -1. */
  function FirstWhere(data: seq<TrackingRow>, t: string, shopee: bool): (j: int)
    ensures -1 <= j < |data|
    ensures j >= 0 ==> Wanted(data[j], t, shopee)
    ensures forall i :: 0 <= i < |data| && (j < 0 || i < j) ==> !Wanted(data[i], t, shopee)
  {
    if data == [] then -1
    else if Wanted(data[0], t, shopee) then 0
    else
      var j := FirstWhere(data[1..], t, shopee);
      assert forall i :: 1 <= i < |data| ==> data[i] == data[1..][i - 1];
      if j < 0 then -1 else j + 1
  }

  /** The row a scan of t is recorded against: the first Shopee row with that
      number, otherwise the first row with that number. */
  function Chosen(data: seq<TrackingRow>, t: string): int {
    if FirstWhere(data, t, true) >= 0 then FirstWhere(data, t, true) else FirstWhere(data, t, false)
  }

  /** The index of the first Shopee row, or -1. */
  function FirstShopee(ms: seq<TrackingRow>): (j: int)
    ensures -1 <= j < |ms|
    ensures j >= 0 ==> ms[j].source == "Shopee"
    ensures forall i :: 0 <= i < |ms| && (j < 0 || i < j) ==> ms[i].source != "Shopee"
  {
    if ms == [] then -1
    else if ms[0].source == "Shopee" then 0
    else
      var j := FirstShopee(ms[1..]);
      assert forall i :: 1 <= i < |ms| ==> ms[i] == ms[1..][i - 1];
      if j < 0 then -1 else j + 1
  }

  /** `matches.find(m => m.source === 'Shopee') || matches[0]` */
  function Preferred(matches: seq<TrackingRow>): (m: TrackingRow)
    requires matches != []
    ensures m in matches
    ensures (exists k :: 0 <= k < |matches| && matches[k].source == "Shopee") ==> m.source == "Shopee"
    ensures (forall k :: 0 <= k < |matches| ==> matches[k].source != "Shopee") ==> m == matches[0]
    ensures m == matches[if FirstShopee(matches) >= 0 then FirstShopee(matches) else 0]
  {
    if matches[0].source == "Shopee" || |matches| == 1 then matches[0]
    else
      var rest := Preferred(matches[1..]);
      assert forall k :: 1 <= k < |matches| ==> matches[k] == matches[1..][k - 1];
      if rest.source == "Shopee" then rest else matches[0]
  }

  /** The preferred match of the scanned number is the chosen row of the data. */
  lemma {:induction false} PreferredIsChosen(data: seq<TrackingRow>, t: string)
    requires Matches(data, t) != []
    ensures FirstWhere(data, t, false) >= 0
    ensures Preferred(Matches(data, t)) == data[Chosen(data, t)]
  {
    var ms := Matches(data, t);
    var rest := data[1..];
    assert forall i :: 1 <= i < |data| ==> data[i] == rest[i - 1];
    if data[0].trackingNumber != t {
      assert ms == Matches(rest, t);
      PreferredIsChosen(rest, t);
    } else if data[0].source != "Shopee" {
      var rms := Matches(rest, t);
      assert ms == [data[0]] + rms;
      if rms != [] {
        assert ms[1..] == rms;
        PreferredIsChosen(rest, t);
        var p := Preferred(rms);
        assert Preferred(ms) == if p.source == "Shopee" then p else data[0];
        if FirstWhere(rest, t, true) >= 0 {
          assert p.source == "Shopee";
        } else {
          assert p.source != "Shopee";
        }
      }
    }
  }


  /** The checks of `pickup:scan`, in the order the handler makes them, giving the
      refusal or the row the scan is recorded against. */
  function Check(data: seq<TrackingRow>, history: seq<HistoryEntry>, trimmed: string): (r: Result)
  {
    if trimmed == "" then Refuse(Empty)
    else if data == [] then Refuse(NoData)
    else if InHistory(history, trimmed) then Refuse(Duplicate)
    else
      var ms := Matches(data, trimmed);
      if ms == [] then Refuse(NotFound) else Accept(Preferred(ms))
  }

  datatype Result = Refuse(error: ScanError) | Accept(row: TrackingRow)

  /** The refusals come in a fixed order: empty input, then no data, then a
      duplicate, then an unknown number; a scan is accepted only when none applies,
      and is then recorded against the first Shopee row with the number, or the
      first row with it when no Shopee row has it. */
  lemma CheckOrder(data: seq<TrackingRow>, history: seq<HistoryEntry>, t: string)
    ensures Check(data, history, t) == Refuse(Empty) <==> t == ""
    ensures Check(data, history, t) == Refuse(NoData) <==> t != "" && data == []
    ensures Check(data, history, t) == Refuse(Duplicate) <==> t != "" && data != [] && InHistory(history, t)
    ensures Check(data, history, t) == Refuse(NotFound) <==>
      t != "" && data != [] && !InHistory(history, t) &&
      forall k :: 0 <= k < |data| ==> data[k].trackingNumber != t
    ensures Check(data, history, t).Accept? ==>
      FirstWhere(data, t, false) >= 0 &&
      Check(data, history, t).row == data[Chosen(data, t)]
  {
    if t != "" && data != [] && !InHistory(history, t) {
      var ms := Matches(data, t);
      if ms != [] {
        PreferredIsChosen(data, t);
      }
    }
  }

  /** The history entry recorded for an accepted scan. */
  function EntryFor(trimmed: string, row: TrackingRow, scannedAt: string): HistoryEntry {
    HistoryEntry(trimmed, row.orderNumber, row.source, row.file, scannedAt,
      if row.items == "" then "[]" else row.items, row.shippingProvider, row.totalAmount, "scanned")
  }

  /** `[...pickupHistory].reverse().slice(0, limit)`, a negative limit counting back
      from the end as `slice` does. */
  function Recent(history: seq<HistoryEntry>, limit: int): (r: seq<HistoryEntry>)
    ensures |r| <= |history| && (limit >= 0 ==> |r| <= limit)
    ensures 0 <= limit ==> |r| == if limit < |history| then limit else |history|
    ensures forall k :: 0 <= k < |r| ==> r[k] == history[|history| - 1 - k]
  {
    var n := |history|;
    var end := if limit >= 0 then (if limit < n then limit else n) else (if n + limit > 0 then n + limit else 0);
    seq(end, k requires 0 <= k < end => history[n - 1 - k])
  }

  class Session {
    var trackingData: seq<TrackingRow>
    var history: seq<HistoryEntry>

    constructor(data: seq<TrackingRow>, loaded: seq<HistoryEntry>)
      ensures trackingData == data && history == loaded
    {
      trackingData := data;
      history := loaded;
    }

    /** `pickup:scan`: a refused scan leaves the history as it was; an accepted one
        appends exactly one entry, for the trimmed number. */
    method Scan(input: Option<string>, scannedAt: string) returns (reply: ScanReply)
      modifies this`history
      ensures var trimmed := NormalizeStr(input);
        match Check(trackingData, old(history), trimmed)
        case Refuse(e) => reply == Refused(e) && history == old(history)
        case Accept(row) =>
          history == old(history) + [EntryFor(trimmed, row, scannedAt)] &&
          reply == Scanned(trimmed, row.source, row.file, scannedAt,
            if row.orderNumber == "" then NatToString(|history|) else row.orderNumber)
    {
      var trimmed := NormalizeStr(input);
      var c := Check(trackingData, history, trimmed);
      match c
      case Refuse(e) =>
        reply := Refused(e);
      case Accept(row) =>
        history := history + [EntryFor(trimmed, row, scannedAt)];
        reply := Scanned(trimmed, row.source, row.file, scannedAt,
          if row.orderNumber == "" then NatToString(|history|) else row.orderNumber);
    }

    /** `pickup:getHistory`: at most `limit` entries, newest first, ten when the
        caller passes no limit; nothing changes. */
    function GetHistory(limit: Option<int>): (r: seq<HistoryEntry>)
      reads this
      ensures |r| <= |history| && (limit.Some? && limit.value >= 0 ==> |r| <= limit.value)
      ensures limit.None? ==> |r| == if |history| < 10 then |history| else 10
      ensures forall k :: 0 <= k < |r| ==> r[k] == history[|history| - 1 - k]
    {
      Recent(history, if limit.Some? then limit.value else 10)
    }
  }

  /** A tracking number that was scanned once is refused as a duplicate afterwards. */
  lemma ScannedIsDuplicate(data: seq<TrackingRow>, history: seq<HistoryEntry>, t: string, row: TrackingRow, at: string)
    requires Check(data, history, t) == Accept(row)
    ensures Check(data, history + [EntryFor(t, row, at)], t) == Refuse(Duplicate)
  {
    var h := history + [EntryFor(t, row, at)];
    assert h[|history|].trackingNumber == t;
  }
}
