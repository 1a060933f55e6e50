/** Numeric vocabulary shared by the surface, lens and notebook models:
    extended reals for a radius that may be `np.inf`, integer powers,
    and the defining facts of a square root. */
module Numbers {

  /** A float that is either finite or positive infinity (`np.inf`). */
  datatype Extended = Finite(value: real) | Infinity

  datatype Option<+T> = None | Some(value: T)

  /** `sqrt` behaves as a square root on the non-negative reals. `np.sqrt`
      is a numpy routine; the model receives it as a parameter and relies
      on nothing but these two facts. */
  ghost predicate IsSqrt(sqrt: real -> real)
  {
    forall x :: 0.0 <= x ==> 0.0 <= sqrt(x) && sqrt(x) * sqrt(x) == x
  }

  /** A non-negative square root is unique. */
  lemma RootUnique(a: real, b: real)
    requires 0.0 <= a && 0.0 <= b
    requires a * a == b * b
    ensures a == b
  {
    assert (a - b) * (a + b) == 0.0;
    assert a - b == 0.0 || a + b == 0.0;
  }

  /** So `sqrt` returns the one non-negative root of a perfect square. */
  lemma SqrtOfSquare(sqrt: real -> real, x: real, y: real)
    requires IsSqrt(sqrt)
    requires 0.0 <= y && x == y * y
    ensures sqrt(x) == y
  {
    RootUnique(sqrt(x), y);
  }

  /** The root of a positive number is positive. */
  lemma PositiveRoot(sqrt: real -> real, x: real)
    requires IsSqrt(sqrt) && 0.0 < x
    ensures 0.0 < sqrt(x) && sqrt(x) * sqrt(x) == x
  {
  }

  /** `x ** n` for a natural exponent, as Python evaluates `h**(i+3)`. */
  function Pow(x: real, n: nat): real
  {
    if n == 0 then 1.0 else x * Pow(x, n - 1)
  }

  /** An even power does not see the sign of its base. */
  lemma {:induction false} PowEven(x: real, n: nat)
    ensures Pow(-x, 2 * n) == Pow(x, 2 * n)
  {
    if n > 0 {
      PowEven(x, n - 1);
      calc {
        Pow(-x, 2 * n);
        (-x) * ((-x) * Pow(-x, 2 * n - 2));
        { assert 2 * n - 2 == 2 * (n - 1); }
        x * (x * Pow(x, 2 * (n - 1)));
        Pow(x, 2 * n);
      }
    }
  }

  function Abs(x: real): real
  {
    if x < 0.0 then -x else x
  }

  function Max(a: real, b: real): real
  {
    if a < b then b else a
  }
}
