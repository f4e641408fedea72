/**
 * The slice of JavaScript's value semantics the pipeline depends on: the
 * values a CSV cell can hold after parsing with dynamic typing, truthiness
 * (`!!v`), and numbers that may be `NaN`.
 */
module Js {

  /** A cell value after dynamic typing; `Undefined` is a missing field. */
  datatype Value = Undefined | Null | Bool(b: bool) | Num(n: int) | Str(s: string)

  /** `!!v`: false exactly for undefined, null, false, 0 and "". */
  predicate Truthy(v: Value) {
    match v
    case Undefined => false
    case Null => false
    case Bool(b) => b
    case Num(n) => n != 0
    case Str(s) => s != ""
  }

  /**
   * `s.length`: the number of UTF-16 code units, where a character outside
   * the Basic Multilingual Plane takes two.
   */
  function Length(s: string): (r: nat)
    ensures |s| <= r <= 2 * |s|
    ensures r == |s| <==> forall i :: 0 <= i < |s| ==> (s[i] as int) < 0x1_0000
    decreases |s|
  {
    if |s| == 0 then 0
    else (if (s[0] as int) < 0x1_0000 then 1 else 2) + Length(s[1..])
  }

  /** The length of a concatenation is the sum of the lengths. */
  lemma {:induction false} LengthAppend(a: string, b: string)
    ensures Length(a + b) == Length(a) + Length(b)
    decreases |a|
  {
    if |a| > 0 {
      assert (a + b)[0] == a[0];
      assert (a + b)[1..] == a[1..] + b;
      LengthAppend(a[1..], b);
    } else {
      assert a + b == b;
    }
  }

  /** A JavaScript number restricted to integers, plus `NaN`. */
  datatype Number = Finite(n: int) | NaN

  /** `a + b`; `NaN` absorbs. */
  function Add(a: Number, b: int): (r: Number)
    ensures r.Finite? <==> a.Finite?
    ensures a.Finite? ==> r.n - a.n == b
  {
    match a
    case Finite(x) => Finite(x + b)
    case NaN => NaN
  }

  /** `Math.abs(a)`. */
  function Abs(a: Number): (r: Number)
    ensures r.Finite? <==> a.Finite?
    ensures a.Finite? ==> r.n >= 0 && (r.n == a.n || r.n == -a.n)
  {
    match a
    case Finite(x) => if x < 0 then Finite(-x) else Finite(x)
    case NaN => NaN
  }

  /**
   * `v > 0` under JavaScript's loose comparison. Converting a string to a
   * number is left to `strToNum`, the engine's `Number(s)`.
   */
  predicate GreaterThanZero(v: Value, strToNum: string -> Number) {
    match v
    case Undefined => false
    case Null => false
    case Bool(b) => b
    case Num(n) => n > 0
    case Str(s) => strToNum(s).Finite? && strToNum(s).n > 0
  }
}
