/**
 * The Python values that travel through the Leapfrog export records, with
 * the two comparisons the export applies to them: `==` and the `>` that the
 * builtin `max` uses. Numbers of any kind compare by value, strings compare
 * code point by code point, and `>` between anything else raises `TypeError`.
 */
module PyValues {
  import opened Wrappers

  /** `None`, a bool, an int, a float or a str. NaN is not modelled. */
  datatype Value = VNone | VBool(b: bool) | VInt(i: int) | VFloat(f: real) | VStr(s: string)

  predicate IsNumber(v: Value)
  {
    v.VBool? || v.VInt? || v.VFloat?
  }

  /** The numeric value Python compares: `True` is 1 and `False` is 0. */
  function NumberOf(v: Value): real
    requires IsNumber(v)
  {
    match v
    case VBool(b) => if b then 1.0 else 0.0
    case VInt(i) => i as real
    case VFloat(f) => f
  }

  /** `a < b` on two strings: the first differing code point decides, and a proper prefix is smaller. */
  predicate StrLess(a: string, b: string)
  {
    if b == [] then false
    else if a == [] then true
    else if a[0] != b[0] then a[0] < b[0]
    else StrLess(a[1..], b[1..])
  }

  lemma StrLessIrreflexive(a: string)
    ensures !StrLess(a, a)
  {
  }

  lemma {:induction false} StrLessTransitive(a: string, b: string, c: string)
    requires StrLess(a, b) && StrLess(b, c)
    ensures StrLess(a, c)
  {
    if a != [] && a[0] == b[0] && b[0] == c[0] {
      StrLessTransitive(a[1..], b[1..], c[1..]);
    }
  }

  lemma StrLessAsymmetric(a: string, b: string)
    ensures !(StrLess(a, b) && StrLess(b, a))
  {
    if StrLess(a, b) && StrLess(b, a) {
      StrLessTransitive(a, b, a);
      StrLessIrreflexive(a);
    }
  }

  lemma {:induction false} StrLessTotal(a: string, b: string)
    ensures a == b || StrLess(a, b) || StrLess(b, a)
  {
    if a != [] && b != [] && a[0] == b[0] {
      StrLessTotal(a[1..], b[1..]);
      if a[1..] == b[1..] {
        assert a == [a[0]] + a[1..] && b == [b[0]] + b[1..];
      }
    }
  }

  /** `a == b`: numbers by value, strings by content, `None` only with `None`, anything else unequal. */
  predicate PyEq(a: Value, b: Value)
  {
    if IsNumber(a) && IsNumber(b) then NumberOf(a) == NumberOf(b)
    else if a.VStr? && b.VStr? then a.s == b.s
    else a.VNone? && b.VNone?
  }

  /** `==` is an equivalence: every value equals itself, and the order of the operands does not matter. */
  lemma PyEqEquivalence(a: Value, b: Value, c: Value)
    ensures PyEq(a, a)
    ensures PyEq(a, b) ==> PyEq(b, a)
    ensures PyEq(a, b) && PyEq(b, c) ==> PyEq(a, c)
  {
  }

  /** Whether `>` between the two is defined: two numbers, or two strings. */
  predicate Comparable(a: Value, b: Value)
  {
    (IsNumber(a) && IsNumber(b)) || (a.VStr? && b.VStr?)
  }

  /** `a > b`, or the `TypeError` it raises. */
  function Greater(a: Value, b: Value): (r: Result<bool, TypeError>)
    ensures r.Ok? <==> Comparable(a, b)
  {
    if IsNumber(a) && IsNumber(b) then Ok(NumberOf(a) > NumberOf(b))
    else if a.VStr? && b.VStr? then Ok(StrLess(b.s, a.s))
    else Err(TypeError)
  }

  /** A value strictly above another is neither below nor equal to it. */
  lemma GreaterAsymmetric(a: Value, b: Value)
    requires Greater(a, b) == Ok(true)
    ensures Greater(b, a) == Ok(false) && !PyEq(a, b)
  {
    if a.VStr? {
      StrLessAsymmetric(a.s, b.s);
      StrLessIrreflexive(a.s);
    }
  }

  /** `>` is transitive, and a value above `b` is above everything `b` is not below. */
  lemma GreaterTransitive(a: Value, b: Value, c: Value)
    requires Greater(a, b) == Ok(true)
    ensures Greater(b, c) == Ok(true) ==> Greater(a, c) == Ok(true)
    ensures Greater(c, b) == Ok(false) ==> Greater(a, c) == Ok(true)
  {
    if a.VStr? && b.VStr? && c.VStr? {
      if Greater(b, c) == Ok(true) {
        StrLessTransitive(c.s, b.s, a.s);
      }
      if Greater(c, b) == Ok(false) {
        StrLessTotal(b.s, c.s);
        if c.s != b.s {
          StrLessTransitive(c.s, b.s, a.s);
        }
      }
    }
  }

  /**
   * Where the builtin `max` over a non-empty list finds its result: it walks
   * the list keeping the first element and replacing it by every later one
   * that is `>` it. The result is an element every earlier one is below and
   * no later one is above, so ties go to the first; `max` raises as soon as
   * an element cannot be compared with the one it holds, which happens
   * exactly when some element cannot be compared with the first.
   */
  function MaxIndex(vs: seq<Value>): (r: Result<nat, TypeError>)
    requires |vs| >= 1
    ensures r.Err? <==> |vs| >= 2 && exists i :: 0 <= i < |vs| && !Comparable(vs[i], vs[0])
    ensures r.Ok? ==> r.value < |vs|
    ensures r.Ok? ==> forall i :: 0 <= i < r.value ==> Greater(vs[r.value], vs[i]) == Ok(true)
    ensures r.Ok? ==> forall i :: r.value < i < |vs| ==> Greater(vs[i], vs[r.value]) == Ok(false)
  {
    if |vs| == 1 then Ok(0)
    else
      var init := vs[..|vs| - 1];
      var last := vs[|vs| - 1];
      match MaxIndex(init)
      case Err(e) =>
        assert forall i :: 0 <= i < |init| ==> init[i] == vs[i];
        Err(e)
      case Ok(j) =>
        assert forall i :: 0 <= i < |init| ==> init[i] == vs[i];
        match Greater(last, vs[j])
        case Err(e) => Err(e)
        case Ok(above) =>
          if above then
            assert forall i :: 0 <= i < j ==> Greater(last, vs[i]) == Ok(true) by {
              forall i | 0 <= i < j { GreaterTransitive(last, vs[j], vs[i]); }
            }
            assert forall i :: j < i < |vs| - 1 ==> Greater(last, vs[i]) == Ok(true) by {
              forall i | j < i < |vs| - 1 { GreaterTransitive(last, vs[j], vs[i]); }
            }
            Ok(|vs| - 1)
          else Ok(j)
  }
}
