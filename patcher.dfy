/** The one-off source patcher that rebuilds the main IPC handler file: it cuts
    the text at the first combo banner (or, failing that, a little before the
    first `combos:getAll` handler) and appends a fixed block of combo handlers.
    Reading the backup and writing the result are not part of this model: the
    patcher is the pure function `Patch` from the backup's text to the new text. */
module Patcher {
  import opened Text
  import opened PatchTemplate

  /** Minimum length of an '=' rule in a banner line. */
  const MinRule: nat := 30
  /** Number of '\n'-separated pieces dropped before the fallback token. */
  const DroppedPieces: nat := 10
  /** The fallback token: the first registration of the `combos:getAll` handler. */
  const Token: string := "ipcMain.handle('combos:getAll'"

  /** A run of n '=' characters. */
  function Rule(n: nat): (r: string)
    ensures |r| == n && forall k :: 0 <= k < n ==> r[k] == '='
  {
    seq(n, _ => '=')
  }

  /** The banner at the head of the appended block. */
  const TemplateBanner: string := BannerText(40, "COMBO PRODUCTS", 40)

  /** "// " + r1 '=', a newline, "// " + title, a newline, "// " + r2 '='. */
  function BannerText(r1: nat, title: string, r2: nat): string {
    "// " + Rule(r1) + "\n// " + title + "\n// " + Rule(r2)
  }

  /** The constant block appended to every output: two newlines, the banner, and
      the combo handlers (TemplateBody). */
  const Template: string := "\n\n" + TemplateBanner + TemplateBody

  /** End of the run of '=' that starts at j (j itself when s[j] is not '='). */
  function EqRunEnd(s: string, j: nat): (e: nat)
    requires j <= |s|
    ensures j <= e <= |s|
    ensures forall k :: j <= k < e ==> s[k] == '='
    ensures e == |s| || s[e] != '='
    decreases |s| - j
  {
    if j < |s| && s[j] == '=' then EqRunEnd(s, j + 1) else j
  }

  /** End of the run of `\s` characters that starts at j. */
  function SpaceRunEnd(s: string, j: nat): (e: nat)
    requires j <= |s|
    ensures j <= e <= |s|
    ensures forall k :: j <= k < e ==> IsPySpace(s[k])
    ensures e == |s| || !IsPySpace(s[e])
    decreases |s| - j
  {
    if j < |s| && IsPySpace(s[j]) then SpaceRunEnd(s, j + 1) else j
  }

  /** End of the line that starts at j: the first '\n' at or after j, or |s|. */
  function LineEnd(s: string, j: nat): (e: nat)
    requires j <= |s|
    ensures j <= e <= |s|
    ensures forall k :: j <= k < e ==> s[k] != '\n'
    ensures e == |s| || s[e] == '\n'
    decreases |s| - j
  {
    if j < |s| && s[j] != '\n' then LineEnd(s, j + 1) else j
  }

  /** The pattern `// ={30,}\s*\n// .*COMBO.*\n// ={30,}`, matched with IGNORECASE
      at the start of t. The first '=' run is maximal because `\s*\n` cannot start
      with '='; the whitespace run must end in the '\n' because the '/' after it is
      not whitespace; `.` stops at the first '\n', so "combo" must occur in the
      rest of that line, ASCII letters compared without case. */
  predicate BannerStart(t: string) {
    StartsWith(t, "// ") && RuleLine(t, EqRunEnd(t, 3))
  }

  /** The opening rule ends at e: it is long enough, and is followed by
      whitespace ending in '\n' and then "// ". */
  predicate RuleLine(t: string, e: nat)
    requires e <= |t|
  {
    e - 3 >= MinRule &&
    var w := SpaceRunEnd(t, e);
    w > e && t[w - 1] == '\n' && OccursAt(t, "// ", w) && ComboLine(t, w + 3, LineEnd(t, w + 3))
  }

  /** The line t[from..n] mentions "combo", and is followed by "\n// " and a rule. */
  predicate ComboLine(t: string, from: nat, n: nat)
    requires from <= n <= |t|
  {
    n < |t| && Contains(Lower(t[from..n]), "combo") &&
    OccursAt(t, "// ", n + 1) && OccursAt(t, Rule(MinRule), n + 4)
  }

  /** The banner pattern matches starting at position i of s. */
  predicate BannerAt(s: string, i: nat) {
    i <= |s| && BannerStart(s[i..])
  }

  /** `re.search` for the banner, from position i on: the leftmost match start. */
  function FindBannerFrom(s: string, i: nat): (r: int)
    requires i <= |s|
    ensures r == -1 || (i <= r <= |s| && BannerAt(s, r))
    ensures forall j: nat :: i <= j && (r == -1 || j < r) ==> !BannerAt(s, j)
    decreases |s| - i
  {
    if BannerAt(s, i) then i
    else if i == |s| then -1
    else FindBannerFrom(s, i + 1)
  }

  function FindBanner(s: string): (r: int)
    ensures r == -1 || (0 <= r <= |s| && BannerAt(s, r))
    ensures forall j: nat :: r == -1 || j < r ==> !BannerAt(s, j)
  {
    FindBannerFrom(s, 0)
  }

  /** `'\n'.join(text.split('\n')[:-10])` */
  function DropLastPieces(text: string): (r: string)
    ensures r <= text
  {
    var pieces := Split(text, '\n');
    var keep := if |pieces| <= DroppedPieces then 0 else |pieces| - DroppedPieces;
    JoinPrefixIsPrefix(text, '\n', keep);
    Join(pieces[..keep], '\n')
  }

  /** The kept part of the input: before the leftmost banner; otherwise the text
      before the first token with its last ten pieces dropped; otherwise all of it. */
  function Clean(content: string): (r: string)
    ensures r <= content
  {
    var p := FindBanner(content);
    if p >= 0 then content[..p]
    else
      var t := IndexOf(content, Token);
      if t >= 0 then DropLastPieces(content[..t]) else content
  }

  /** The text the patcher writes. */
  function Patch(content: string): (r: string)
    ensures |r| >= |Template|
    ensures r[..|r| - |Template|] <= content
    ensures r[|r| - |Template|..] == Template
  {
    Clean(content) + Template
  }

  /** When a banner occurs anywhere, the cut is at the leftmost one, wherever the
      fallback token is: the token is not consulted. */
  lemma CutAtLeftmostBanner(content: string, p: nat)
    requires BannerAt(content, p)
    ensures 0 <= FindBanner(content) <= p
    ensures Clean(content) == content[..FindBanner(content)]
  {
  }

  /** No banner, token present: the last ten '\n'-pieces before the token go. */
  lemma FallbackDropsTenPieces(content: string)
    requires forall j: nat :: !BannerAt(content, j)
    requires Contains(content, Token)
    ensures var t := IndexOf(content, Token);
      var pieces := Split(content[..t], '\n');
      t >= 0 && Clean(content) ==
        Join(pieces[..if |pieces| <= DroppedPieces then 0 else |pieces| - DroppedPieces], '\n')
  {
    assert FindBanner(content) == -1;
    var i :| OccursAt(content, Token, i);
  }

  /** No banner, and fewer than ten newlines before the token: nothing is kept. */
  lemma {:induction false} FallbackShortPrefixIsEmpty(content: string)
    requires forall j: nat :: !BannerAt(content, j)
    requires Contains(content, Token)
    requires CountChar(content[..IndexOf(content, Token)], '\n') < DroppedPieces
    ensures Clean(content) == ""
  {
    FallbackDropsTenPieces(content);
    SplitLength(content[..IndexOf(content, Token)], '\n');
  }

  /** Neither banner nor token: the whole input is kept. */
  lemma KeepsAllWithoutMarkers(content: string)
    requires forall j: nat :: !BannerAt(content, j)
    requires !Contains(content, Token)
    ensures Clean(content) == content
    ensures Patch(content) == content + Template
  {
    assert FindBanner(content) == -1;
    assert IndexOf(content, Token) == -1;
  }

  /** The patched text always holds a banner, at the latest where the appended
      block puts it: a later run over the output cuts at or before that point. */
  lemma OutputHasBanner(content: string)
    ensures 0 <= FindBanner(Patch(content)) <= |Clean(content)| + 2
  {
    TemplateBannerMatches();
    BannerAfterBreaks(Clean(content), TemplateBanner, TemplateBody);
  }

  lemma BannerAfterBreaks(c: string, b: string, y: string)
    requires BannerStart(b)
    ensures BannerAt(c + ("\n\n" + b + y), |c| + 2)
  {
    BannerStartExtends(b, y);
    Regroup(c, b, y);
    BannerAfterPrefix(c + "\n\n", b + y);
  }

  lemma Regroup(c: string, b: string, y: string)
    ensures c + ("\n\n" + b + y) == (c + "\n\n") + (b + y)
  {
  }

  /** A banner placed after any text is found where it starts. */
  lemma BannerAfterPrefix(p: string, q: string)
    requires BannerStart(q)
    ensures BannerAt(p + q, |p|)
  {
    assert (p + q)[|p|..] == q;
  }

  /** The banner at the head of the appended block matches the pattern. */
  lemma TemplateBannerMatches()
    ensures BannerStart(TemplateBanner)
  {
    var title := "COMBO PRODUCTS";
    assert Lower(title)[..5] == "combo";
    BannerShapeMatches(40, title, 40);
  }

  /** Any text of the shape "// ===…\n// <title mentioning combo>\n// ===…" is a banner. */
  lemma BannerShapeMatches(r1: nat, title: string, r2: nat)
    requires r1 >= MinRule && r2 >= MinRule
    requires forall k :: 0 <= k < |title| ==> title[k] != '\n'
    requires Contains(Lower(title), "combo")
    ensures BannerStart(BannerText(r1, title, r2))
  {
    ShapeSlices(r1, title, r2);
    ShapedIsBanner(BannerText(r1, title, r2), r1, title, r2);
  }

  /** t is laid out as BannerText(r1, title, r2), piece by piece. */
  predicate Shaped(t: string, r1: nat, title: string, r2: nat) {
    var e := 3 + r1;
    var n := e + 4 + |title|;
    |t| == n + 4 + r2 && t[..3] == "// " && t[3..e] == Rule(r1) && t[e..e + 4] == "\n// " &&
    t[e + 4..n] == title && t[n..n + 4] == "\n// " && t[n + 4..] == Rule(r2)
  }

  lemma ShapeSlices(r1: nat, title: string, r2: nat)
    ensures Shaped(BannerText(r1, title, r2), r1, title, r2)
  {
  }

  lemma ShapedIsBanner(t: string, r1: nat, title: string, r2: nat)
    requires Shaped(t, r1, title, r2)
    requires r1 >= MinRule && r2 >= MinRule
    requires forall k :: 0 <= k < |title| ==> title[k] != '\n'
    requires Contains(Lower(title), "combo")
    ensures BannerStart(t)
  {
    ShapeRuns(t, r1, title, r2);
    ShapeSeparators(t, r1, title, r2);
    ShapeComboLine(t, r1, title, r2);
    BannerFromParts(t, 3 + r1, 7 + r1 + |title|);
  }

  /** The pieces of a banner whose opening rule ends at e and whose middle line ends at n. */
  predicate BannerParts(t: string, e: nat, n: nat) {
    3 <= e < |t| && StartsWith(t, "// ") && EqRunEnd(t, 3) == e && e - 3 >= MinRule &&
    SpaceRunEnd(t, e) == e + 1 && t[e] == '\n' && OccursAt(t, "// ", e + 1) &&
    e + 4 <= n <= |t| && LineEnd(t, e + 4) == n && ComboLine(t, e + 4, n)
  }

  lemma BannerFromParts(t: string, e: nat, n: nat)
    requires BannerParts(t, e, n)
    ensures BannerStart(t)
  {
  }

  lemma ShapeSeparators(t: string, r1: nat, title: string, r2: nat)
    requires Shaped(t, r1, title, r2)
    ensures StartsWith(t, "// ") && t[3 + r1] == '\n' && OccursAt(t, "// ", 4 + r1)
  {
    var e := 3 + r1;
    assert t[e + 1..e + 4] == t[e..e + 4][1..];
    assert t[e] == t[e..e + 4][0];
  }

  lemma ShapeRuns(t: string, r1: nat, title: string, r2: nat)
    requires Shaped(t, r1, title, r2)
    requires forall k :: 0 <= k < |title| ==> title[k] != '\n'
    ensures EqRunEnd(t, 3) == 3 + r1 && SpaceRunEnd(t, 3 + r1) == 4 + r1
    ensures LineEnd(t, 7 + r1) == 7 + r1 + |title|
  {
    var e := 3 + r1;
    var n := e + 4 + |title|;
    assert EqRunEnd(t, 3) == e by {
      assert forall k :: 3 <= k < e ==> t[k] == t[3..e][k - 3];
      assert t[e] == t[e..e + 4][0];
    }
    assert SpaceRunEnd(t, e) == e + 1 by {
      assert t[e] == t[e..e + 4][0] && t[e + 1] == t[e..e + 4][1];
    }
    assert LineEnd(t, e + 4) == n by {
      assert forall k :: e + 4 <= k < n ==> t[k] == t[e + 4..n][k - (e + 4)];
      assert t[n] == t[n..n + 4][0];
    }
  }

  lemma ShapeComboLine(t: string, r1: nat, title: string, r2: nat)
    requires Shaped(t, r1, title, r2)
    requires r2 >= MinRule
    requires Contains(Lower(title), "combo")
    ensures ComboLine(t, 7 + r1, 7 + r1 + |title|)
  {
    var n := 7 + r1 + |title|;
    assert t[n + 1..n + 4] == t[n..n + 4][1..];
    assert t[n + 4..n + 4 + MinRule] == t[n + 4..][..MinRule];
  }

  /** A banner stays a banner when text is appended after it. */
  lemma BannerStartExtends(x: string, y: string)
    requires BannerStart(x)
    ensures BannerStart(x + y)
  {
    RunEndsExtend(x, y, 3);
    RuleLineExtends(x, y, EqRunEnd(x, 3));
    assert (x + y)[..3] == x[..3];
  }

  lemma RuleLineExtends(x: string, y: string, e: nat)
    requires e <= |x| && RuleLine(x, e)
    ensures RuleLine(x + y, e)
  {
    var s := x + y;
    var w := SpaceRunEnd(x, e);
    assert w + 3 <= |x|;
    SpaceRunExtends(x, y, e);
    var n := LineEnd(x, w + 3);
    assert n < |x|;
    LineEndExtends(x, y, w + 3);
    ComboLineExtends(x, y, w + 3, n);
    assert s[w - 1] == x[w - 1];
    assert s[w..w + 3] == x[w..w + 3];
  }

  lemma SpaceRunExtends(x: string, y: string, j: nat)
    requires j <= |x| && SpaceRunEnd(x, j) < |x|
    ensures SpaceRunEnd(x + y, j) == SpaceRunEnd(x, j)
  {
    var s := x + y;
    assert forall k :: j <= k <= SpaceRunEnd(x, j) ==> s[k] == x[k];
  }

  lemma LineEndExtends(x: string, y: string, j: nat)
    requires j <= |x| && LineEnd(x, j) < |x|
    ensures LineEnd(x + y, j) == LineEnd(x, j)
  {
    var s := x + y;
    assert forall k :: j <= k <= LineEnd(x, j) ==> s[k] == x[k];
  }

  lemma ComboLineExtends(x: string, y: string, from: nat, n: nat)
    requires from <= n <= |x| && ComboLine(x, from, n)
    ensures ComboLine(x + y, from, n)
  {
    var s := x + y;
    assert s[from..n] == x[from..n];
    assert s[n + 1..n + 4] == x[n + 1..n + 4];
    assert s[n + 4..n + 4 + MinRule] == x[n + 4..n + 4 + MinRule];
  }

  lemma RunEndsExtend(x: string, y: string, j: nat)
    requires j <= |x| && EqRunEnd(x, j) < |x|
    ensures EqRunEnd(x + y, j) == EqRunEnd(x, j)
  {
    var s := x + y;
    assert forall k :: j <= k <= EqRunEnd(x, j) ==> s[k] == x[k];
  }
}
