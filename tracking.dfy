/** The tracking id that the order pages write into a record's notes and read
    back when a parcel is scanned. Notes are written as
    "Shipping: <provider> | Tracking: <id> | ..." and read with the regular
    expression /Tracking: ([^|]+)/, whose capture is then trimmed. */
module TrackingNotes {
  import opened Text

  const Label: string := "Tracking: "

  /** `value || 'N/A'`: how the notes write an empty provider or tracking id. */
  function OrNA(s: string): string {
    if s != "" then s else "N/A"
  }

  /** The regular expression matches at i: the label, then at least one
      character other than '|'. */
  predicate MatchAt(s: string, i: int) {
    OccursAt(s, Label, i) && i + |Label| < |s| && s[i + |Label|] != '|'
  }

  /** The leftmost match at or after `from`, or -1: the regular expression
      engine tries the start positions from left to right. */
  function FirstMatchFrom(s: string, from: nat): (r: int)
    requires from <= |s|
    ensures r == -1 || (from <= r && MatchAt(s, r))
    ensures forall j :: from <= j && (r == -1 || j < r) ==> !MatchAt(s, j)
    decreases |s| - from
  {
    if MatchAt(s, from) then from
    else if from == |s| then -1
    else FirstMatchFrom(s, from + 1)
  }

  /** The greedy `[^|]+` stops at the first '|' or at the end of the text. */
  function PipeEnd(s: string, from: nat): (e: nat)
    requires from <= |s|
    ensures from <= e <= |s|
    ensures forall k :: from <= k < e ==> s[k] != '|'
    ensures e < |s| ==> s[e] == '|'
    decreases |s| - from
  {
    if from == |s| || s[from] == '|' then from else PipeEnd(s, from + 1)
  }

  /** `notes?.match(/Tracking: ([^|]+)/)`, its first group trimmed, or "" when
      nothing matches (absent notes are the empty text). */
  function TrackingOf(notes: string): (t: string)
    ensures FirstMatchFrom(notes, 0) == -1 ==> t == ""
  {
    var i := FirstMatchFrom(notes, 0);
    if i < 0 then ""
    else
      var start := i + |Label|;
      Trim(notes[start..PipeEnd(notes, start)])
  }

  /** The notes text begins "Shipping: s | Tracking: t |", laid out slice by slice. */
  predicate Shaped(n: string, s: string, t: string) {
    25 + |s| + |t| <= |n| &&
    n[..10] == "Shipping: " &&
    n[10..10 + |s|] == s &&
    n[10 + |s|..23 + |s|] == " | Tracking: " &&
    n[23 + |s|..23 + |s| + |t|] == t &&
    n[23 + |s| + |t|..25 + |s| + |t|] == " |"
  }

  lemma NotesShaped(s: string, t: string, tail: string)
    ensures Shaped("Shipping: " + s + " | Tracking: " + t + " |" + tail, s, t)
  {
    var n := "Shipping: " + s + " | Tracking: " + t + " |" + tail;
    assert n == "Shipping: " + (s + (" | Tracking: " + (t + (" |" + tail))));
  }

  /** No match starts inside "Shipping: ": that text has no 'T'. */
  lemma NoMatchInPrefix(n: string, p: int)
    requires 10 <= |n| && n[..10] == "Shipping: " && 0 <= p < 10
    ensures !MatchAt(n, p)
  {
    assert n[p] == n[..10][p] != 'T';
    if p + 10 <= |n| {
      assert n[p..p + 10][0] == n[p];
    }
  }

  /** No match starts inside s: the label would then occur in s. */
  lemma NoMatchInProvider(n: string, s: string, p: int)
    requires 10 + |s| <= |n| && n[10..10 + |s|] == s && !Contains(s, Label)
    requires 10 <= p && p + 10 <= 10 + |s|
    ensures !MatchAt(n, p)
  {
    var q := p - 10;
    ProviderWindow(n, s, p);
    assert !OccursAt(s, Label, q);
  }

  /** The ten characters at p inside s, read from the notes. */
  lemma ProviderWindow(n: string, s: string, p: int)
    requires 10 + |s| <= |n| && n[10..10 + |s|] == s
    requires 10 <= p && p + 10 <= 10 + |s|
    ensures n[p..p + 10] == s[p - 10..p]
  {
    var w := n[p..p + 10];
    var v := s[p - 10..p];
    forall k | 0 <= k < 10 ensures w[k] == v[k] {
      assert s[p - 10 + k] == n[10..10 + |s|][p - 10 + k];
    }
  }

  /** A label that ends just before the '|' after s is followed by '|', so the
      group cannot take a character; a label covering that '|' or starting at
      the space after it does not occur. */
  lemma NoMatchAroundPipe(n: string, s: string, p: int)
    requires 23 + |s| <= |n| && n[10 + |s|..23 + |s|] == " | Tracking: "
    requires 10 + |s| < p + 10 && p < 13 + |s|
    ensures !MatchAt(n, p)
  {
    var sep := n[10 + |s|..23 + |s|];
    assert n[11 + |s|] == sep[1] == '|';
    assert n[12 + |s|] == sep[2] == ' ';
  }

  /** The label written before t matches: it is followed by t, or by the space
      after t when t is empty. */
  lemma WrittenLabelMatches(n: string, s: string, t: string)
    requires Shaped(n, s, t) && forall k :: 0 <= k < |t| ==> t[k] != '|'
    ensures MatchAt(n, 13 + |s|)
  {
    var sep := n[10 + |s|..23 + |s|];
    assert n[13 + |s|..23 + |s|] == sep[3..];
    var tail := n[23 + |s| + |t|..25 + |s| + |t|];
    if t == [] {
      assert n[23 + |s|] == tail[0];
    } else {
      assert n[23 + |s|] == n[23 + |s|..23 + |s| + |t|][0];
    }
  }

  /** The label written before t is the leftmost match. */
  lemma FirstMatchIsWritten(n: string, s: string, t: string)
    requires Shaped(n, s, t) && !Contains(s, Label)
    requires forall k :: 0 <= k < |t| ==> t[k] != '|'
    ensures FirstMatchFrom(n, 0) == 13 + |s|
  {
    WrittenLabelMatches(n, s, t);
    forall p | 0 <= p < 13 + |s|
      ensures !MatchAt(n, p)
    {
      if p < 10 {
        NoMatchInPrefix(n, p);
      } else if p + 10 <= 10 + |s| {
        NoMatchInProvider(n, s, p);
      } else {
        NoMatchAroundPipe(n, s, p);
      }
    }
  }

  /** A run free of '|' that ends at a '|' is exactly what the group takes. */
  lemma PipeEndIs(n: string, from: nat, e: nat)
    requires from <= e < |n| && n[e] == '|'
    requires forall k :: from <= k < e ==> n[k] != '|'
    ensures PipeEnd(n, from) == e
  {
  }

  /** The group runs over t and the space after it, up to the written '|'. */
  lemma CaptureIsWritten(n: string, start: nat, t: string)
    requires start + |t| + 2 <= |n|
    requires n[start..start + |t|] == t && n[start + |t|..start + |t| + 2] == " |"
    requires forall k :: 0 <= k < |t| ==> t[k] != '|'
    ensures n[start..PipeEnd(n, start)] == t + " "
  {
    var e := start + |t| + 1;
    var tail := n[start + |t|..start + |t| + 2];
    assert n[e - 1] == tail[0] == ' ' && n[e] == tail[1] == '|';
    forall k | start <= k < e
      ensures n[k] != '|'
    {
      if k < start + |t| {
        assert n[k] == t[k - start];
      }
    }
    PipeEndIs(n, start, e);
    assert n[start..e] == n[start..start + |t|] + [n[e - 1]];
  }

  /** Reading the tracking id back from notes written as
      "Shipping: s | Tracking: t | ..." gives t trimmed, when t has no '|' and
      the shipping provider text does not itself contain "Tracking: ". */
  lemma TrackingRoundTrip(s: string, t: string, tail: string)
    requires !Contains(s, Label)
    requires forall k :: 0 <= k < |t| ==> t[k] != '|'
    ensures TrackingOf("Shipping: " + s + " | Tracking: " + t + " |" + tail) == Trim(t)
  {
    var n := "Shipping: " + s + " | Tracking: " + t + " |" + tail;
    NotesShaped(s, t, tail);
    FirstMatchIsWritten(n, s, t);
    CaptureIsWritten(n, 23 + |s|, t);
    TrimDropsTrailingSpace(t, " ");
  }
}
