/** Version comparison for the update check: dotted numeric components compared
    left to right, a missing component counting as 0, in the spirit of section 11
    of Semantic Versioning 2.0.0 without pre-release or build metadata. */
module Versions {
  import opened Text

  /** `Number(part) || 0` for one component: a run of digits reads as its value (the
      empty run as 0); anything JavaScript reads as NaN falls back to 0. */
  function ComponentValue(part: string): (n: nat)
    ensures AllDigits(part) ==> n == DigitsValue(part)
    ensures !AllDigits(part) ==> n == 0
  {
    if AllDigits(part) then DigitsValue(part) else 0
  }

  /** `v.split('.').map(Number)`, each component read as above. */
  function Parts(v: string): (ps: seq<nat>)
    ensures |ps| == |Split(v, '.')|
    ensures forall k :: 0 <= k < |ps| ==> ps[k] == ComponentValue(Split(v, '.')[k])
  {
    var pieces := Split(v, '.');
    seq(|pieces|, k requires 0 <= k < |pieces| => ComponentValue(pieces[k]))
  }

  /** `parts[i] || 0` */
  function At(ps: seq<nat>, i: nat): nat {
    if i < |ps| then ps[i] else 0
  }

  function MaxLen(a: seq<nat>, b: seq<nat>): nat {
    if |a| < |b| then |b| else |a|
  }

  /** The comparison from component `i` on: the first index where the components
      differ decides, and running out of both lists means equal. */
  function CompareFrom(a: seq<nat>, b: seq<nat>, i: nat): (r: int)
    decreases MaxLen(a, b) - i
    ensures r == -1 || r == 0 || r == 1
  {
    if i >= MaxLen(a, b) then 0
    else if At(a, i) > At(b, i) then 1
    else if At(a, i) < At(b, i) then -1
    else CompareFrom(a, b, i + 1)
  }

  function Compare(a: seq<nat>, b: seq<nat>): int {
    CompareFrom(a, b, 0)
  }

  /** Two component lists that agree at every index up to the longer length. */
  predicate SameFrom(a: seq<nat>, b: seq<nat>, i: nat) {
    forall j :: i <= j < MaxLen(a, b) ==> At(a, j) == At(b, j)
  }

  /** Equal exactly when every component agrees (padding with zeros); otherwise the
      first index at which they differ decides, numerically. */
  lemma {:induction false} CompareFromDecides(a: seq<nat>, b: seq<nat>, i: nat)
    ensures CompareFrom(a, b, i) == 0 <==> SameFrom(a, b, i)
    ensures forall d :: (i <= d < MaxLen(a, b) && At(a, d) != At(b, d) &&
        forall j :: i <= j < d ==> At(a, j) == At(b, j)) ==>
      CompareFrom(a, b, i) == (if At(a, d) > At(b, d) then 1 else -1)
    decreases MaxLen(a, b) - i
  {
    if i < MaxLen(a, b) && At(a, i) == At(b, i) {
      CompareFromDecides(a, b, i + 1);
      assert SameFrom(a, b, i) <==> SameFrom(a, b, i + 1);
    }
  }

  /** Comparing a list with itself gives 0. */
  lemma CompareReflexive(a: seq<nat>)
    ensures Compare(a, a) == 0
  {
    CompareFromDecides(a, a, 0);
  }

  /** Swapping the arguments negates the result. */
  lemma {:induction false} CompareAntisymmetric(a: seq<nat>, b: seq<nat>, i: nat)
    ensures CompareFrom(a, b, i) == -CompareFrom(b, a, i)
    decreases MaxLen(a, b) - i
  {
    assert MaxLen(a, b) == MaxLen(b, a);
    if i < MaxLen(a, b) && At(a, i) == At(b, i) {
      CompareAntisymmetric(a, b, i + 1);
    }
  }

  /** Trailing zero components change nothing: "1.0" and "1.0.0" compare equal. */
  lemma TrailingZerosIgnored(a: seq<nat>, b: seq<nat>)
    requires |a| <= |b| && b[..|a|] == a
    requires forall k :: |a| <= k < |b| ==> b[k] == 0
    ensures Compare(a, b) == 0
  {
    forall j | 0 <= j < MaxLen(a, b) ensures At(a, j) == At(b, j) {
      if j < |a| {
        assert b[..|a|][j] == b[j];
      }
    }
    CompareFromDecides(a, b, 0);
  }

  /** `compareVersions(v1, v2)` */
  function CompareVersions(v1: string, v2: string): (r: int)
    ensures r == -1 || r == 0 || r == 1
    ensures r == 0 <==> SameFrom(Parts(v1), Parts(v2), 0)
    ensures forall d :: (0 <= d < MaxLen(Parts(v1), Parts(v2)) && At(Parts(v1), d) != At(Parts(v2), d) &&
        forall j :: 0 <= j < d ==> At(Parts(v1), j) == At(Parts(v2), j)) ==>
      r == (if At(Parts(v1), d) > At(Parts(v2), d) then 1 else -1)
  {
    CompareFromDecides(Parts(v1), Parts(v2), 0);
    Compare(Parts(v1), Parts(v2))
  }

  /** `compareVersions` as the program runs it: a loop over the longer list with an
      early return at the first differing component. */
  method CompareVersionsLoop(v1: string, v2: string) returns (r: int)
    ensures r == CompareVersions(v1, v2)
    ensures r == -1 || r == 0 || r == 1
  {
    var parts1 := Parts(v1);
    var parts2 := Parts(v2);
    var n := if |parts1| < |parts2| then |parts2| else |parts1|;
    var i := 0;
    while i < n
      invariant 0 <= i <= n && n == MaxLen(parts1, parts2)
      invariant CompareFrom(parts1, parts2, i) == Compare(parts1, parts2)
    {
      var num1 := if i < |parts1| then parts1[i] else 0;
      var num2 := if i < |parts2| then parts2[i] else 0;
      if num1 > num2 {
        return 1;
      }
      if num1 < num2 {
        return -1;
      }
      i := i + 1;
    }
    return 0;
  }

  /** A missing trailing component counts as 0: "1.0" equals "1.0.0". */
  lemma MissingComponentIsZero()
    ensures CompareVersions("1.0", "1.0.0") == 0
  {
    PartsOfOneZero();
    PartsOfOneZeroZero();
    TrailingZerosIgnored([1, 0], [1, 0, 0]);
  }

  lemma PartsOfOneZero()
    ensures Parts("1.0") == [1, 0]
  {
    SplitPiece("0", "", '.');
    SplitPiece("1", "0", '.');
    assert "1.0" == "1" + ['.'] + "0";
  }

  lemma PartsOfOneZeroZero()
    ensures Parts("1.0.0") == [1, 0, 0]
  {
    SplitOfOneZeroZero();
    var ps := Parts("1.0.0");
    assert ps[0] == ComponentValue("1") && ps[1] == ComponentValue("0") && ps[2] == ComponentValue("0");
  }

  lemma SplitOfOneZeroZero()
    ensures Split("1.0.0", '.') == ["1", "0", "0"]
  {
    SplitPiece("0", "", '.');
    SplitPiece("0", "0", '.');
    assert "0.0" == "0" + ['.'] + "0";
    SplitPiece("1", "0.0", '.');
    assert "1.0.0" == "1" + ['.'] + "0.0";
  }

  /** Components compare as numbers, not as text: "1.10" is newer than "1.9". */
  lemma NumericNotLexical()
    ensures CompareVersions("1.10", "1.9") == 1
  {
    PartsOfOneTen();
    PartsOfOneNine();
  }

  lemma PartsOfOneTen()
    ensures Parts("1.10") == [1, 10]
  {
    SplitPiece("10", "", '.');
    SplitPiece("1", "10", '.');
    assert "1.10" == "1" + ['.'] + "10";
    assert DigitsValue("10") == 10 by { assert "10"[..1] == "1"; }
  }

  lemma PartsOfOneNine()
    ensures Parts("1.9") == [1, 9]
  {
    SplitPiece("9", "", '.');
    SplitPiece("1", "9", '.');
    assert "1.9" == "1" + ['.'] + "9";
  }

  /** `tag.replace('v', '')`: only the first 'v' anywhere in the tag is removed. */
  function StripFirstV(tag: string): (r: string)
    ensures 'v' !in tag ==> r == tag
    ensures 'v' in tag ==>
      exists i :: 0 <= i < |tag| && tag[i] == 'v' && 'v' !in tag[..i] && r == tag[..i] + tag[i + 1..]
  {
    var i := IndexOf(tag, "v");
    assert forall j :: 0 <= j < |tag| ==> (OccursAt(tag, "v", j) <==> tag[j] == 'v') by {
      forall j | 0 <= j < |tag| ensures OccursAt(tag, "v", j) <==> tag[j] == 'v' {
        assert tag[j..j + 1] == [tag[j]];
      }
    }
    if i == -1 then tag
    else tag[..i] + tag[i + 1..]
  }

  /** A leading 'v' is stripped; a second 'v' survives. */
  lemma StripFirstVExamples(s: string)
    ensures StripFirstV("v" + s) == s
    ensures StripFirstV("vv1.0") == "v1.0"
  {
    assert ("v" + s)[0] == 'v';
    assert ("v" + s)[1..] == s;
  }

  /** `hasUpdate`: the stripped release tag is strictly newer than the running version. */
  function HasUpdate(tag: string, current: string): (b: bool)
    ensures b <==> CompareVersions(StripFirstV(tag), current) == 1
  {
    CompareVersions(StripFirstV(tag), current) > 0
  }

  /** A release with the running version's own number is never an update. */
  lemma NoUpdateToSameVersion(current: string)
    ensures !HasUpdate("v" + current, current)
  {
    StripFirstVExamples(current);
    CompareReflexive(Parts(current));
  }
}
