/** Polynomials in one variable as sequences of monomials, their value,
    and their derivative by the power rule. The aspheric correction of a
    surface is such a polynomial in the height `h`. */
module Polynomial {
  import opened Numbers

  /** The monomial `coef * x^exp`. */
  datatype Term = Term(coef: real, exp: nat)

  function TermValue(t: Term, x: real): real
  {
    t.coef * Pow(x, t.exp)
  }

  /** The value at `x` of the sum of the terms, accumulated left to right. */
  function Eval(p: seq<Term>, x: real): real
    decreases |p|
  {
    if p == [] then 0.0 else Eval(p[..|p| - 1], x) + TermValue(p[|p| - 1], x)
  }

  /** Power rule for one monomial: `d/dx a*x^n = n*a*x^(n-1)`; a constant
      has derivative zero. */
  function DerivTerm(t: Term): Term
  {
    if t.exp == 0 then Term(0.0, 0) else Term(t.exp as real * t.coef, t.exp - 1)
  }

  /** Term-by-term derivative. */
  function Derivative(p: seq<Term>): seq<Term>
    decreases |p|
  {
    if p == [] then [] else Derivative(p[..|p| - 1]) + [DerivTerm(p[|p| - 1])]
  }

  lemma {:induction false} DerivativeAt(p: seq<Term>, i: nat)
    requires i < |p|
    ensures |Derivative(p)| == |p| && Derivative(p)[i] == DerivTerm(p[i])
  {
    if i < |p| - 1 {
      DerivativeAt(p[..|p| - 1], i);
    } else if |p| > 1 {
      DerivativeAt(p[..|p| - 1], 0);
    }
  }

  /** A sequence that lists the derivative of every term of `p` is the
      derivative of `p`. */
  lemma DerivativeByTerms(p: seq<Term>, q: seq<Term>)
    requires |q| == |p| && forall i :: 0 <= i < |p| ==> q[i] == DerivTerm(p[i])
    ensures Derivative(p) == q
  {
    if p != [] {
      DerivativeAt(p, 0);
    }
    forall i | 0 <= i < |p|
      ensures Derivative(p)[i] == q[i]
    {
      DerivativeAt(p, i);
    }
  }

  /** Appending one term adds its value. */
  lemma EvalSnoc(p: seq<Term>, t: Term, x: real)
    ensures Eval(p + [t], x) == Eval(p, x) + TermValue(t, x)
    ensures Derivative(p + [t]) == Derivative(p) + [DerivTerm(t)]
  {
    assert (p + [t])[..|p|] == p;
  }

  /** A polynomial whose coefficients are all zero is zero everywhere. */
  lemma {:induction false} EvalZeroCoefs(p: seq<Term>, x: real)
    requires forall i :: 0 <= i < |p| ==> p[i].coef == 0.0
    ensures Eval(p, x) == 0.0
  {
    if p != [] {
      EvalZeroCoefs(p[..|p| - 1], x);
    }
  }

  /** The derivative of a polynomial with zero coefficients has zero
      coefficients. */
  lemma {:induction false} DerivativeZeroCoefs(p: seq<Term>)
    requires forall i :: 0 <= i < |p| ==> p[i].coef == 0.0
    ensures |Derivative(p)| == |p|
    ensures forall i :: 0 <= i < |p| ==> Derivative(p)[i].coef == 0.0
  {
    forall i | 0 <= i < |p|
      ensures |Derivative(p)| == |p| && Derivative(p)[i].coef == 0.0
    {
      DerivativeAt(p, i);
    }
    if p != [] {
      DerivativeAt(p, 0);
    }
  }

  /* ----- The power rule is the derivative -----
     A function f has derivative L at x when f(y) - f(x) = (y - x) * q(y)
     for some q continuous at x with q(x) = L (Caratheodory's form of the
     definition). For a polynomial the quotient q is again a polynomial,
     `Chord` below, so it is continuous; the lemmas show that its value on
     the diagonal is what `Derivative` computes. */

  /** `Chord(n, x, y) = sum_{j<n} x^j * y^(n-1-j)`, the quotient of
      `x^n - y^n` by `x - y`. */
  function Chord(n: nat, x: real, y: real): real
  {
    if n == 0 then 0.0 else Pow(x, n - 1) + y * Chord(n - 1, x, y)
  }

  lemma {:induction false} PowDifference(n: nat, x: real, y: real)
    ensures Pow(x, n) - Pow(y, n) == (x - y) * Chord(n, x, y)
  {
    if n > 0 {
      PowDifference(n - 1, x, y);
      calc {
        (x - y) * Chord(n, x, y);
        (x - y) * Pow(x, n - 1) + y * ((x - y) * Chord(n - 1, x, y));
        (x - y) * Pow(x, n - 1) + y * (Pow(x, n - 1) - Pow(y, n - 1));
        x * Pow(x, n - 1) - y * Pow(y, n - 1);
      }
    }
  }

  lemma {:induction false} ChordDiagonal(n: nat, x: real)
    ensures Chord(n, x, x) == if n == 0 then 0.0 else n as real * Pow(x, n - 1)
  {
    if n > 1 {
      ChordDiagonal(n - 1, x);
      calc {
        Chord(n, x, x);
        Pow(x, n - 1) + x * ((n - 1) as real * Pow(x, n - 2));
        Pow(x, n - 1) + (n - 1) as real * (x * Pow(x, n - 2));
        n as real * Pow(x, n - 1);
      }
    }
  }

  /** The difference quotient of a whole polynomial. */
  function ChordSum(p: seq<Term>, x: real, y: real): real
    decreases |p|
  {
    if p == [] then 0.0
    else ChordSum(p[..|p| - 1], x, y) + p[|p| - 1].coef * Chord(p[|p| - 1].exp, x, y)
  }

  /** One monomial: `a*x^e - a*y^e == (x - y) * (a * Chord(e, x, y))`. */
  lemma TermDifference(t: Term, x: real, y: real)
    ensures TermValue(t, x) - TermValue(t, y) == (x - y) * (t.coef * Chord(t.exp, x, y))
  {
    PowDifference(t.exp, x, y);
    ScaleDifference(t.coef, Pow(x, t.exp), Pow(y, t.exp), x - y, Chord(t.exp, x, y));
  }

  /** `u - v == d * w` scaled by `a`. */
  lemma ScaleDifference(a: real, u: real, v: real, d: real, w: real)
    requires u - v == d * w
    ensures a * u - a * v == d * (a * w)
  {
    calc {
      a * u - a * v;
      a * (u - v);
      a * (d * w);
    }
  }

  /** What the last term adds to the value. */
  lemma EvalLast(p: seq<Term>, x: real)
    requires p != []
    ensures Eval(p, x) == Eval(p[..|p| - 1], x) + TermValue(p[|p| - 1], x)
  {
  }

  /** What the last term adds to the difference quotient. */
  lemma ChordSumLast(p: seq<Term>, x: real, y: real)
    requires p != []
    ensures ChordSum(p, x, y) == ChordSum(p[..|p| - 1], x, y) + p[|p| - 1].coef * Chord(p[|p| - 1].exp, x, y)
  {
  }

  /** `p(x) - p(y) = (x - y) * ChordSum(p, x, y)` for all x and y. */
  lemma {:induction false} EvalDifference(p: seq<Term>, x: real, y: real)
    ensures Eval(p, x) - Eval(p, y) == (x - y) * ChordSum(p, x, y)
  {
    if p != [] {
      EvalDifference(p[..|p| - 1], x, y);
      TermDifference(p[|p| - 1], x, y);
      EvalLast(p, x);
      EvalLast(p, y);
      ChordSumLast(p, x, y);
      Distribute(x, y, Eval(p[..|p| - 1], x), Eval(p[..|p| - 1], y), TermValue(p[|p| - 1], x),
                 TermValue(p[|p| - 1], y), ChordSum(p[..|p| - 1], x, y),
                 p[|p| - 1].coef * Chord(p[|p| - 1].exp, x, y), Eval(p, x), Eval(p, y), ChordSum(p, x, y));
    }
  }

  /** The inductive step of `EvalDifference` on plain numbers: the chords
      of the first terms and of the last one add up. */
  lemma Distribute(x: real, y: real, qx: real, qy: real, tx: real, ty: real, cq: real, ct: real,
                   ex: real, ey: real, cp: real)
    requires qx - qy == (x - y) * cq
    requires tx - ty == (x - y) * ct
    requires ex == qx + tx
    requires ey == qy + ty
    requires cp == cq + ct
    ensures ex - ey == (x - y) * cp
  {
  }

  /** On the diagonal the difference quotient is the power-rule derivative. */
  lemma {:induction false} ChordSumDiagonal(p: seq<Term>, x: real)
    ensures ChordSum(p, x, x) == Eval(Derivative(p), x)
  {
    if p != [] {
      var q, t := p[..|p| - 1], p[|p| - 1];
      ChordSumDiagonal(q, x);
      ChordDiagonal(t.exp, x);
      EvalSnoc(Derivative(q), DerivTerm(t), x);
      if t.exp > 0 {
        assert t.coef * (t.exp as real * Pow(x, t.exp - 1))
            == (t.exp as real * t.coef) * Pow(x, t.exp - 1);
      }
    }
  }

  /** The power-rule derivative is the derivative: the difference quotient
      of `p` between `x` and `y` is a polynomial that equals
      `Eval(Derivative(p), x)` at `y = x`. */
  lemma PowerRuleIsDerivative(p: seq<Term>, x: real, y: real)
    ensures Eval(p, y) - Eval(p, x) == (y - x) * ChordSum(p, y, x)
    ensures ChordSum(p, x, x) == Eval(Derivative(p), x)
  {
    EvalDifference(p, y, x);
    ChordSumDiagonal(p, x);
  }
}
