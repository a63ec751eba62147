/** JavaScript operators whose meaning differs from Dafny's: `||` on
    possibly-missing values, `??`, and the truncating remainder `%`. */
module Js {
  import opened Wrappers

  /** A value JavaScript treats as true in `a || b`: present and not the
      type's falsy value (`''` for strings, `0` for numbers). */
  predicate Truthy<T(==)>(o: Option<T>, falsy: T) {
    o.Some? && o.value != falsy
  }

  /** `a || b`: `a` when it is truthy, otherwise `b`. Chains `a || b || c`
      are written `Or(a, Or(b, c))`, which picks the same operand. */
  function Or<T(==)>(a: Option<T>, b: Option<T>, falsy: T): (r: Option<T>)
    ensures Truthy(a, falsy) ==> r == a
    ensures !Truthy(a, falsy) ==> r == b
  {
    if Truthy(a, falsy) then a else b
  }

  /** `a ?? b`: only a missing value is replaced. */
  function Nullish<T>(a: Option<T>, b: Option<T>): (r: Option<T>)
    ensures a.Some? ==> r == a
    ensures a.None? ==> r == b
  {
    if a.Some? then a else b
  }

  /** `xs.indexOf(x)`: the first position holding `x`, or -1. */
  function IndexOf<T(==)>(xs: seq<T>, x: T): (i: int)
    ensures x in xs ==> 0 <= i < |xs| && xs[i] == x && x !in xs[..i]
    ensures x !in xs ==> i == -1
  {
    if xs == [] then -1
    else if xs[0] == x then 0
    else
      var j := IndexOf(xs[1..], x);
      if j < 0 then -1
      else
        assert xs[..j + 1] == [xs[0]] + xs[1..][..j];
        j + 1
  }

  /** `a % b` in JavaScript for a positive divisor: the remainder takes
      the sign of the dividend, where Dafny's `%` is never negative. */
  function JsRem(a: int, b: int): (r: int)
    requires b > 0
    ensures a >= 0 ==> 0 <= r < b && r == a % b
    ensures a < 0 ==> -b < r <= 0 && r == (if a % b == 0 then 0 else a % b - b)
  {
    if a >= 0 then a % b
    else
      NegRem(a, b);
      -((-a) % b)
  }

  lemma NegRem(a: int, b: int)
    requires b > 0 && a < 0
    ensures (-a) % b == (if a % b == 0 then 0 else b - a % b)
  {
    var q := a / b;
    var m := a % b;
    assert a == b * q + m;
    if m == 0 {
      assert -a == b * (-q) + 0;
      UniqueDivMod(-a, b, -q, 0);
    } else {
      assert -a == b * (-q - 1) + (b - m);
      UniqueDivMod(-a, b, -q - 1, b - m);
    }
  }

  /** Euclidean division has exactly one quotient and remainder. */
  lemma UniqueDivMod(a: int, b: int, q: int, r: int)
    requires b > 0 && a == b * q + r && 0 <= r < b
    ensures a / b == q && a % b == r
  {
    var q0 := a / b;
    var r0 := a % b;
    assert b * q0 + r0 == b * q + r;
    assert b * (q0 - q) == r - r0;
    if q0 > q {
      MulAtLeast(b, q0 - q);
    } else if q0 < q {
      MulAtLeast(b, q - q0);
    }
  }

  lemma MulAtLeast(b: int, x: int)
    requires b > 0 && x >= 1
    ensures b * x >= b
  {
  }
}
