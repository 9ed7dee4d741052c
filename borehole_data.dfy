/**
 * The records of the borehole package (`PathPoint`, `SurveySegment`, `Casing`,
 * `Interval`) and `count_significant_figures`, which decides the rounding
 * precision of the depth grid.
 */
module BoreholeData {
  import opened Wrappers

  /** A georeferenced point of the drilling path with the measured depth that produced it. */
  datatype PathPoint = PathPoint(x: real, y: real, z: real, depth: Option<real>)

  /** A survey station: measured depth, dip (0 = horizontal, 90 = down) and azimuth, in degrees. */
  datatype SurveySegment = SurveySegment(depth: real, dip: real, azimuth: real)

  datatype Casing = Casing(depthFrom: real, depthTo: real, casingRadius: real)

  datatype Interval = Interval(depthFrom: real, depthTo: real, lithology: string)

  /** `s.rstrip(c)`: drop every trailing `c`. */
  function RStrip(s: string, c: char): (r: string)
    ensures |r| <= |s| && r == s[..|r|]
    ensures forall i :: |r| <= i < |s| ==> s[i] == c
    ensures r == [] || r[|r| - 1] != c
  {
    if s == [] || s[|s| - 1] != c then s else RStrip(s[..|s| - 1], c)
  }

  /** `s.lstrip(c)`: drop every leading `c`. */
  function LStrip(s: string, c: char): (r: string)
    ensures |r| <= |s| && r == s[|s| - |r|..]
    ensures forall i :: 0 <= i < |s| - |r| ==> s[i] == c
    ensures r == [] || r[0] != c
  {
    if s == [] || s[0] != c then s else LStrip(s[1..], c)
  }

  /** What `count_significant_figures` measures: the string with its zeros stripped. */
  function StrippedFigures(numStr: string): string
  {
    if '.' in numStr then LStrip(RStrip(RStrip(numStr, '0'), '.'), '0')
    else LStrip(numStr, '0')
  }

  /** Number of occurrences of `c` in `s`. */
  function Occurrences(s: string, c: char): nat
  {
    if s == [] then 0 else Occurrences(s[1..], c) + (if s[0] == c then 1 else 0)
  }

  /**
   * `count_significant_figures`, on the text `str(number)` produces: the
   * length of that text once leading zeros (and, for a decimal, trailing
   * zeros and then the trailing point) are stripped; 0 when nothing is left,
   * which happens exactly for the texts of zero.
   */
  function CountSignificantFigures(numStr: string): (n: nat)
    ensures n <= |numStr|
    ensures '.' !in numStr ==> (n == 0 <==> forall i :: 0 <= i < |numStr| ==> numStr[i] == '0')
    ensures Occurrences(numStr, '.') == 1 ==>
      (n == 0 <==> forall i :: 0 <= i < |numStr| ==> numStr[i] == '0' || numStr[i] == '.')
  {
    var stripped := StrippedFigures(numStr);
    NoLeadingFiguresLeft(numStr);
    NoFiguresLeft(numStr);
    if stripped == [] then 0 else |stripped|
  }

  /** `lstrip('0')` leaves nothing exactly when the text is all zeros. */
  lemma NoLeadingFiguresLeft(s: string)
    ensures LStrip(s, '0') == [] <==> forall i :: 0 <= i < |s| ==> s[i] == '0'
  {
    var r := LStrip(s, '0');
    if r != [] {
      assert s[|s| - |r|] == r[0];
    }
  }

  /** Two positions holding the only occurrence of `c` are the same position. */
  lemma {:induction false} SingleOccurrence(s: string, c: char, p: nat, q: nat)
    requires Occurrences(s, c) == 1
    requires p < |s| && q < |s| && s[p] == c && s[q] == c
    ensures p == q
  {
    if s[0] == c {
      assert Occurrences(s[1..], c) == 0;
      if p != 0 { NoOccurrence(s[1..], c, p - 1); }
      if q != 0 { NoOccurrence(s[1..], c, q - 1); }
    } else {
      SingleOccurrence(s[1..], c, p - 1, q - 1);
    }
  }

  lemma {:induction false} NoOccurrence(s: string, c: char, p: nat)
    requires Occurrences(s, c) == 0 && p < |s|
    ensures s[p] != c
  {
    if p > 0 { NoOccurrence(s[1..], c, p - 1); }
  }

  /** For a decimal text, nothing is left exactly when it holds only zeros and its one point. */
  lemma NoFiguresLeft(s: string)
    ensures LStrip(RStrip(RStrip(s, '0'), '.'), '0') == [] ==>
      forall i :: 0 <= i < |s| ==> s[i] == '0' || s[i] == '.'
    ensures '.' in s && Occurrences(s, '.') == 1 && (forall i :: 0 <= i < |s| ==> s[i] == '0' || s[i] == '.') ==>
      LStrip(RStrip(RStrip(s, '0'), '.'), '0') == []
  {
    OnlyZerosAndPointLeft(s);
    if '.' in s && Occurrences(s, '.') == 1 && (forall i :: 0 <= i < |s| ==> s[i] == '0' || s[i] == '.') {
      ZerosAndPointStripToNothing(s);
    }
  }

  lemma OnlyZerosAndPointLeft(s: string)
    ensures LStrip(RStrip(RStrip(s, '0'), '.'), '0') == [] ==>
      forall i :: 0 <= i < |s| ==> s[i] == '0' || s[i] == '.'
  {
    var v := RStrip(s, '0');
    var u := RStrip(v, '.');
    NoLeadingFiguresLeft(u);
    if LStrip(u, '0') == [] {
      forall i | 0 <= i < |s| ensures s[i] == '0' || s[i] == '.' {
        if i < |v| {
          assert s[i] == v[i];
          if i < |u| { assert v[i] == u[i]; }
        }
      }
    }
  }

  lemma ZerosAndPointStripToNothing(s: string)
    requires Occurrences(s, '.') == 1
    requires forall i :: 0 <= i < |s| ==> s[i] == '0' || s[i] == '.'
    requires '.' in s
    ensures LStrip(RStrip(RStrip(s, '0'), '.'), '0') == []
  {
    var v := RStrip(s, '0');
    var u := RStrip(v, '.');
    var p :| 0 <= p < |s| && s[p] == '.';
    assert |v| > p;
    assert v[|v| - 1] == s[|v| - 1] == '.';
    SingleOccurrence(s, '.', p, |v| - 1);
    assert u == RStrip(v[..|v| - 1], '.');
    forall i | 0 <= i < |u| ensures u[i] == '0' {
      assert u[i] == v[i];
      assert v[i] == s[i];
      if s[i] == '.' { SingleOccurrence(s, '.', p, i); }
    }
    NoLeadingFiguresLeft(u);
  }

  /**
   * For a decimal whose text starts and ends with a significant digit, the
   * count is the whole text, the decimal point included: "1.5" counts 3.
   */
  lemma DecimalPointCounted(whole: string, fraction: string)
    requires whole != [] && whole[0] != '0'
    requires fraction != [] && fraction[|fraction| - 1] != '0' && fraction[|fraction| - 1] != '.'
    ensures CountSignificantFigures(whole + "." + fraction) == |whole| + 1 + |fraction|
  {
    var s := whole + "." + fraction;
    assert s[|s| - 1] == fraction[|fraction| - 1];
    assert RStrip(s, '0') == s;
    assert RStrip(s, '.') == s;
    assert s[0] == whole[0];
    assert LStrip(s, '0') == s;
  }
}
