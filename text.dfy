/** String primitives shared by the model: the two whitespace sets the program
    relies on (JavaScript's String.prototype.trim and Python's `\s`), ASCII case
    mapping, substring search, splitting and joining on one character, and the
    decimal rendering and reading of natural numbers. */
module Text {

  /** Characters removed by JavaScript's String.prototype.trim: the WhiteSpace
      and LineTerminator productions of ECMAScript. */
  predicate IsJsSpace(c: char) {
    c == '\t' || c == '\n' || c == '\U{000B}' || c == '\U{000C}' || c == '\r' ||
    c == ' ' || c == '\U{00A0}' || c == '\U{1680}' ||
    ('\U{2000}' <= c <= '\U{200A}') ||
    c == '\U{2028}' || c == '\U{2029}' || c == '\U{202F}' || c == '\U{205F}' ||
    c == '\U{3000}' || c == '\U{FEFF}'
  }

  /** Characters matched by `\s` in a Python 3 `str` pattern (str.isspace). */
  predicate IsPySpace(c: char) {
    ('\t' <= c <= '\r') || ('\U{001C}' <= c <= ' ') ||
    c == '\U{0085}' || c == '\U{00A0}' || c == '\U{1680}' ||
    ('\U{2000}' <= c <= '\U{200A}') ||
    c == '\U{2028}' || c == '\U{2029}' || c == '\U{202F}' || c == '\U{205F}' ||
    c == '\U{3000}'
  }

  predicate AllJsSpace(s: string) {
    forall i :: 0 <= i < |s| ==> IsJsSpace(s[i])
  }

  /** `s.trimStart()` */
  function TrimStart(s: string): (r: string)
    ensures |r| <= |s| && r == s[|s| - |r|..]
    ensures AllJsSpace(s[..|s| - |r|])
    ensures r != [] ==> !IsJsSpace(r[0])
    ensures s != [] && IsJsSpace(s[0]) ==> |r| < |s|
  {
    if s == [] || !IsJsSpace(s[0]) then s else TrimStart(s[1..])
  }

  /** `s.trimEnd()` */
  function TrimEnd(s: string): (r: string)
    ensures |r| <= |s| && r == s[..|r|]
    ensures AllJsSpace(s[|r|..])
    ensures r != [] ==> !IsJsSpace(r[|r| - 1])
  {
    if s == [] || !IsJsSpace(s[|s| - 1]) then s else TrimEnd(s[..|s| - 1])
  }

  /** `s.trim()` */
  function Trim(s: string): string {
    TrimEnd(TrimStart(s))
  }

  /** The trimmed text is the part of s between a leading and a trailing run
      of whitespace, and neither starts nor ends with whitespace. */
  lemma TrimIsInner(s: string)
    ensures var t := Trim(s);
      exists i :: 0 <= i && i + |t| <= |s| && t == s[i..i + |t|] &&
        AllJsSpace(s[..i]) && AllJsSpace(s[i + |t|..])
    ensures Trim(s) != [] ==> !IsJsSpace(Trim(s)[0]) && !IsJsSpace(Trim(s)[|Trim(s)| - 1])
  {
    var a := TrimStart(s);
    var t := TrimEnd(a);
    InnerPart(s, |s| - |a|, a, t);
    if t != [] {
      assert t[0] == a[0];
    }
  }

  /** A prefix t of the suffix a of s that starts at i sits between s[..i]
      and what follows t in a. */
  lemma InnerPart(s: string, i: int, a: string, t: string)
    requires 0 <= i <= |s| && a == s[i..] && |t| <= |a| && t == a[..|t|]
    requires AllJsSpace(s[..i]) && AllJsSpace(a[|t|..])
    ensures i + |t| <= |s| && t == s[i..i + |t|] && AllJsSpace(s[..i]) && AllJsSpace(s[i + |t|..])
  {
    assert a[|t|..] == s[i + |t|..];
  }

  /** A trimmed string is empty exactly when the input is all whitespace, and
      otherwise starts and ends with a non-space character that occurs in s. */
  lemma TrimEmptyIff(s: string)
    ensures Trim(s) == [] <==> AllJsSpace(s)
  {
    var a := TrimStart(s);
    if Trim(s) == [] {
      assert a == [];
      assert s[..|s|] == s;
    }
  }

  /** Trimming is idempotent. */
  lemma {:induction false} TrimIdempotent(s: string)
    ensures Trim(Trim(s)) == Trim(s)
  {
    var t := Trim(s);
    if t != [] {
      assert !IsJsSpace(t[0]) by {
        var a := TrimStart(s);
        assert t == a[..|t|];
      }
      assert TrimStart(t) == t;
      assert TrimEnd(t) == t;
    } else {
      assert TrimStart(t) == [];
    }
  }

  /** Trailing whitespace does not change the trimmed value. */
  lemma {:induction false} TrimDropsTrailingSpace(t: string, w: string)
    requires AllJsSpace(w)
    ensures Trim(t + w) == Trim(t)
  {
    if AllJsSpace(t) {
      assert AllJsSpace(t + w);
      TrimEmptyIff(t + w);
      TrimEmptyIff(t);
    } else {
      TrimStartKeepsSuffix(t, w);
      TrimEndDropsSpace(TrimStart(t), w);
    }
  }

  lemma {:induction false} TrimStartKeepsSuffix(t: string, w: string)
    requires !AllJsSpace(t)
    ensures TrimStart(t + w) == TrimStart(t) + w
  {
    if IsJsSpace(t[0]) {
      assert (t + w)[1..] == t[1..] + w;
      assert !AllJsSpace(t[1..]) by {
        var i :| 0 <= i < |t| && !IsJsSpace(t[i]);
        assert t[1..][i - 1] == t[i];
      }
      TrimStartKeepsSuffix(t[1..], w);
    }
  }

  lemma {:induction false} TrimEndDropsSpace(t: string, w: string)
    requires AllJsSpace(w)
    ensures TrimEnd(t + w) == TrimEnd(t)
    decreases |w|
  {
    if w != [] {
      assert (t + w)[..|t + w| - 1] == t + w[..|w| - 1];
      TrimEndDropsSpace(t, w[..|w| - 1]);
    } else {
      assert t + w == t;
    }
  }

  /** ASCII case mapping; characters outside A-Z / a-z are unchanged. */
  function LowerChar(c: char): char {
    if 'A' <= c <= 'Z' then (c as int + 32) as char else c
  }

  function UpperChar(c: char): char {
    if 'a' <= c <= 'z' then (c as int - 32) as char else c
  }

  /** `s.toLowerCase()` on ASCII letters. */
  function Lower(s: string): (r: string)
    ensures |r| == |s| && forall i :: 0 <= i < |s| ==> r[i] == LowerChar(s[i])
  {
    seq(|s|, i requires 0 <= i < |s| => LowerChar(s[i]))
  }

  /** `s.toUpperCase()` on ASCII letters. */
  function Upper(s: string): (r: string)
    ensures |r| == |s| && forall i :: 0 <= i < |s| ==> r[i] == UpperChar(s[i])
  {
    seq(|s|, i requires 0 <= i < |s| => UpperChar(s[i]))
  }

  /** `s.startsWith(p)` */
  predicate StartsWith(s: string, p: string) {
    |p| <= |s| && s[..|p|] == p
  }

  /** `p` occurs in `s` at position i. */
  predicate OccursAt(s: string, p: string, i: int) {
    0 <= i && i + |p| <= |s| && s[i..i + |p|] == p
  }

  /** `s.includes(p)`, computed by scanning left to right. */
  function Contains(s: string, p: string): (b: bool)
    ensures b <==> exists i :: OccursAt(s, p, i)
  {
    if StartsWith(s, p) then
      assert OccursAt(s, p, 0);
      true
    else if s == [] then
      assert forall i :: !OccursAt(s, p, i);
      false
    else
      var b := Contains(s[1..], p);
      assert forall i :: OccursAt(s[1..], p, i) <==> OccursAt(s, p, i + 1) by {
        forall i ensures OccursAt(s[1..], p, i) <==> OccursAt(s, p, i + 1) {
          if 0 <= i && i + |p| <= |s| - 1 { assert s[1..][i..i + |p|] == s[i + 1..i + 1 + |p|]; }
        }
      }
      assert forall i :: OccursAt(s, p, i) ==> i == 0 || OccursAt(s[1..], p, i - 1);
      b
  }

  /** Position of the first occurrence of `p` in `s` at or after `from`. */
  function IndexOfFrom(s: string, p: string, from: nat): (r: int)
    requires from <= |s|
    ensures r == -1 || (from <= r && OccursAt(s, p, r))
    ensures forall j :: from <= j && (r == -1 || j < r) ==> !OccursAt(s, p, j)
    decreases |s| - from
  {
    if OccursAt(s, p, from) then from
    else if from == |s| then
      assert forall j :: from <= j ==> !OccursAt(s, p, j);
      -1
    else IndexOfFrom(s, p, from + 1)
  }

  /** `s.indexOf(p)` */
  function IndexOf(s: string, p: string): (r: int)
    ensures r == -1 || OccursAt(s, p, r)
    ensures forall j :: 0 <= j && (r == -1 || j < r) ==> !OccursAt(s, p, j)
  {
    IndexOfFrom(s, p, 0)
  }

  /** `s.split(sep)` for a one-character separator. */
  function Split(s: string, sep: char): (parts: seq<string>)
    ensures |parts| >= 1
    ensures forall k, i :: 0 <= k < |parts| && 0 <= i < |parts[k]| ==> parts[k][i] != sep
  {
    if s == [] then [[]]
    else
      var rest := Split(s[1..], sep);
      if s[0] == sep then [[]] + rest
      else [[s[0]] + rest[0]] + rest[1..]
  }

  /** Splitting a text that starts with a separator-free piece yields that piece
      first: the whole text when no separator follows, else the split of the rest. */
  lemma {:induction false} SplitPiece(a: string, rest: string, sep: char)
    requires sep !in a
    ensures Split(a, sep) == [a]
    ensures Split(a + [sep] + rest, sep) == [a] + Split(rest, sep)
  {
    if a != [] {
      SplitPiece(a[1..], rest, sep);
      assert (a + [sep] + rest)[1..] == a[1..] + [sep] + rest;
      assert [a[0]] + a[1..] == a;
    } else {
      assert a + [sep] + rest == [sep] + rest;
      assert ([sep] + rest)[1..] == rest;
    }
  }

  /** `parts.join(sep)` */
  function Join(parts: seq<string>, sep: char): string {
    if parts == [] then []
    else if |parts| == 1 then parts[0]
    else parts[0] + [sep] + Join(parts[1..], sep)
  }

  /** The join is at least as long as its first piece. */
  lemma JoinCoversFirst(parts: seq<string>, sep: char)
    requires parts != []
    ensures |Join(parts, sep)| >= |parts[0]|
  {
    if |parts| > 1 {
      assert Join(parts, sep) == parts[0] + [sep] + Join(parts[1..], sep);
    }
  }

  /** Splitting the join of separator-free pieces gives the pieces back. */
  lemma {:induction false} SplitJoin(parts: seq<string>, sep: char)
    requires |parts| >= 1
    requires forall k :: 0 <= k < |parts| ==> sep !in parts[k]
    ensures Split(Join(parts, sep), sep) == parts
  {
    if |parts| == 1 {
      SplitPiece(parts[0], [], sep);
    } else {
      SplitJoin(parts[1..], sep);
      SplitPiece(parts[0], Join(parts[1..], sep), sep);
      assert [parts[0]] + parts[1..] == parts;
    }
  }

  /** `parts.join(sep)` for a separator of several characters. */
  function JoinStr(parts: seq<string>, sep: string): string {
    if parts == [] then []
    else if |parts| == 1 then parts[0]
    else parts[0] + sep + JoinStr(parts[1..], sep)
  }

  /** `s.replace(/\s+/g, '')`: every whitespace character removed. */
  function RemoveSpaces(s: string): (r: string)
    ensures |r| <= |s|
    ensures forall i :: 0 <= i < |r| ==> !IsJsSpace(r[i])
    ensures forall c :: c in r <==> c in s && !IsJsSpace(c)
  {
    if s == [] then []
    else
      var rest := RemoveSpaces(s[1..]);
      assert forall c :: c in s <==> c == s[0] || c in s[1..];
      if IsJsSpace(s[0]) then rest else [s[0]] + rest
  }

  /** Number of occurrences of c in s. */
  function CountChar(s: string, c: char): nat {
    if s == [] then 0 else (if s[0] == c then 1 else 0) + CountChar(s[1..], c)
  }

  /** A split yields one more piece than there are separators. */
  lemma {:induction false} SplitLength(s: string, sep: char)
    ensures |Split(s, sep)| == CountChar(s, sep) + 1
  {
    if s != [] { SplitLength(s[1..], sep); }
  }

  /** Joining the pieces of a split gives back the original text. */
  lemma {:induction false} JoinSplit(s: string, sep: char)
    ensures Join(Split(s, sep), sep) == s
  {
    if s != [] {
      JoinSplit(s[1..], sep);
      if s[0] == sep {
        JoinSplitAtSep(s, sep);
      } else {
        JoinSplitAtChar(s, sep);
      }
    }
  }

  /** The step of JoinSplit for a text starting with the separator. */
  lemma JoinSplitAtSep(s: string, sep: char)
    requires s != [] && s[0] == sep && Join(Split(s[1..], sep), sep) == s[1..]
    ensures Join(Split(s, sep), sep) == s
  {
    var rest := Split(s[1..], sep);
    assert Split(s, sep) == [[]] + rest;
    assert ([[]] + rest)[1..] == rest;
    assert Join([[]] + rest, sep) == [] + [sep] + Join(rest, sep);
    assert s == [s[0]] + s[1..];
  }

  /** The step of JoinSplit for a text starting with another character. */
  lemma JoinSplitAtChar(s: string, sep: char)
    requires s != [] && s[0] != sep && Join(Split(s[1..], sep), sep) == s[1..]
    ensures Join(Split(s, sep), sep) == s
  {
    var rest := Split(s[1..], sep);
    var parts := Split(s, sep);
    assert parts == [[s[0]] + rest[0]] + rest[1..];
    assert s == [s[0]] + s[1..];
    if |rest| == 1 {
      assert Join(parts, sep) == [s[0]] + rest[0];
      assert Join(rest, sep) == rest[0];
    } else {
      assert parts[1..] == rest[1..];
      assert Join(rest, sep) == rest[0] + [sep] + Join(rest[1..], sep);
      assert Join(parts, sep) == [s[0]] + rest[0] + [sep] + Join(rest[1..], sep);
    }
  }

  /** Joining a non-empty prefix of the pieces of a split gives a prefix of the text. */
  lemma {:induction false} JoinPrefixIsPrefix(s: string, sep: char, k: nat)
    requires k <= |Split(s, sep)|
    ensures Join(Split(s, sep)[..k], sep) <= s
  {
    var parts := Split(s, sep);
    if k == |parts| {
      assert parts[..k] == parts;
      JoinSplit(s, sep);
    } else {
      JoinPrefixOfJoin(parts, sep, k);
      JoinSplit(s, sep);
    }
  }

  lemma {:induction false} JoinPrefixOfJoin(parts: seq<string>, sep: char, k: nat)
    requires k <= |parts|
    ensures Join(parts[..k], sep) <= Join(parts, sep)
  {
    if k == 0 {
    } else if k == 1 {
      assert parts[..1] == [parts[0]];
      assert Join(parts[..k], sep) == parts[0];
    } else {
      assert parts[..k][1..] == parts[1..][..k - 1];
      JoinPrefixOfJoin(parts[1..], sep, k - 1);
      assert Join(parts[..k], sep) == parts[0] + [sep] + Join(parts[1..][..k - 1], sep);
    }
  }

  predicate IsDigit(c: char) {
    '0' <= c <= '9'
  }

  predicate AllDigits(s: string) {
    forall i :: 0 <= i < |s| ==> IsDigit(s[i])
  }

  function DigitChar(d: nat): (c: char)
    requires d < 10
    ensures IsDigit(c) && c as int - '0' as int == d
  {
    ('0' as int + d) as char
  }

  /** The decimal rendering of a natural number, as `${n}` gives it. */
  function NatToString(n: nat): (s: string)
    ensures s != [] && AllDigits(s)
    ensures n > 0 ==> s[0] != '0'
  {
    if n < 10 then [DigitChar(n)] else NatToString(n / 10) + [DigitChar(n % 10)]
  }

  /** `${n}` for an integer: a leading '-' for negative numbers. */
  function IntToString(n: int): (s: string)
    ensures s != []
  {
    if n < 0 then "-" + NatToString(-n) else NatToString(n)
  }

  /** The value of a string of decimal digits; the empty string reads as 0,
      as JavaScript's Number('') does. */
  function DigitsValue(s: string): nat
    requires AllDigits(s)
  {
    if s == [] then 0 else DigitsValue(s[..|s| - 1]) * 10 + (s[|s| - 1] as int - '0' as int)
  }

  /** Reading back a rendered number gives the number. */
  lemma {:induction false} DigitsValueOfNatToString(n: nat)
    ensures DigitsValue(NatToString(n)) == n
  {
    if n >= 10 {
      var s := NatToString(n);
      assert s[..|s| - 1] == NatToString(n / 10);
      DigitsValueOfNatToString(n / 10);
    }
  }

  /** Text containing a query contains every prefix of it. */
  lemma ContainsLonger(s: string, q: string, more: string)
    ensures Contains(s, q + more) ==> Contains(s, q)
  {
    if Contains(s, q + more) {
      var i :| OccursAt(s, q + more, i);
      assert s[i..i + |q|] == (q + more)[..|q|];
      assert OccursAt(s, q, i);
    }
  }
}
