/** The arithmetic of a rotationally symmetric surface profile: vertex
    curvature from the radius, the conic sag and its derivatives, and the
    aspheric polynomial with its two exponent mappings. Every function is
    pure; the surface classes evaluate these formulas on their fields. */
module Profile {
  import opened Numbers
  import opened Polynomial

  /* ----- Vertex curvature ----- */

  /** `Sphere.c`: zero for a flat (infinite) radius, `1/r` otherwise, and
      infinity when the radius is zero. */
  function SphereCurvature(r: Extended): (c: Extended)
    ensures r.Infinity? ==> c == Finite(0.0)
    ensures r == Finite(0.0) ==> c.Infinity?
    ensures r.Finite? && r.value != 0.0 ==> c.Finite? && c.value != 0.0 && c.value * r.value == 1.0
  {
    if r == Infinity then Finite(0.0)
    else if r.value == 0.0 then Infinity
    else Finite(1.0 / r.value)
  }

  /** `EvenAsphere.c` and `OddAsphere.c`: the plain reciprocal `1/r`, where
      a float division gives `1/inf == 0.0` and a zero divisor raises
      `ZeroDivisionError`, which is caught and answered with infinity. */
  function ConicCurvature(r: Extended): (c: Extended)
    ensures r.Infinity? ==> c == Finite(0.0)
    ensures r == Finite(0.0) ==> c.Infinity?
    ensures r.Finite? && r.value != 0.0 ==> c.Finite? && c.value * r.value == 1.0
  {
    match r
    case Infinity => Finite(0.0)
    case Finite(x) => if x == 0.0 then Infinity else Finite(1.0 / x)
  }

  /** The two ways of computing `c` give the same answer for every radius. */
  lemma CurvaturesAgree(r: Extended)
    ensures ConicCurvature(r) == SphereCurvature(r)
    ensures r != Finite(0.0) <==> ConicCurvature(r).Finite?
  {
  }

  /* ----- Sphere ----- */

  /** The term under the square root of the sphere formulas. */
  function SphereRadicand(c: real, h: real): real
  {
    1.0 - c * c * h * h
  }

  /** `Sphere.sag`: `c*h^2 / (1 + sqrt(1 - c^2*h^2))`. */
  function SphereSag(sqrt: real -> real, c: real, h: real): real
    requires IsSqrt(sqrt) && SphereRadicand(c, h) >= 0.0
  {
    c * h * h / (1.0 + sqrt(SphereRadicand(c, h)))
  }

  /** The sphere sag is zero when flat, and the point `(h, z)` lies on the
      circle through the vertex whose centre is at `z = 1/c` on the axis:
      `c*(h^2 + z^2) == 2*z`, i.e. `h^2 + (z - R)^2 == R^2`. */
  lemma SphereSagOnCircle(sqrt: real -> real, c: real, h: real)
    requires IsSqrt(sqrt) && SphereRadicand(c, h) >= 0.0
    ensures c == 0.0 ==> SphereSag(sqrt, c, h) == 0.0
    ensures var z := SphereSag(sqrt, c, h);
      c * (h * h + z * z) == 2.0 * z
  {
    var s := sqrt(SphereRadicand(c, h));
    SagOnConic(c, 1.0, h, s);
  }

  /** `Sphere.deriv_1st`, the two terms `z1 + z2` as the source writes them. */
  function SphereSlope(sqrt: real -> real, c: real, h: real): real
    requires IsSqrt(sqrt) && SphereRadicand(c, h) > 0.0
  {
    var rt := sqrt(SphereRadicand(c, h));
    PositiveRoot(sqrt, SphereRadicand(c, h));
    var z1 := 2.0 * c * h / (rt + 1.0);
    var z2 := c * c * c * (h * h * h) / (rt * ((rt + 1.0) * (rt + 1.0)));
    z1 + z2
  }

  /** The two terms add up to the closed form `c*h / sqrt(1 - c^2*h^2)`,
      which is the slope that implicit differentiation of the circle
      `c*(h^2 + z^2) == 2*z` gives: `z' * (1 - c*z) == c*h`. */
  lemma SphereSlopeClosedForm(sqrt: real -> real, c: real, h: real)
    requires IsSqrt(sqrt) && SphereRadicand(c, h) > 0.0
    ensures SphereSlope(sqrt, c, h) == c * h / sqrt(SphereRadicand(c, h))
    ensures SphereSlope(sqrt, c, h) * (1.0 - c * SphereSag(sqrt, c, h)) == c * h
  {
    var rt := sqrt(SphereRadicand(c, h));
    PositiveRoot(sqrt, SphereRadicand(c, h));
    SlopeTerms(c, 0.0, h, rt);
    SlopeImplicit(c, 1.0, h, rt);
  }

  /** At the edge of the valid zone, `h == |R|`, the square root vanishes
      and the sag is the radius itself. */
  lemma SphereSagAtEdge(sqrt: real -> real, r: real, h: real)
    requires IsSqrt(sqrt) && r != 0.0 && h * h == r * r
    ensures SphereRadicand(1.0 / r, h) == 0.0
    ensures SphereSag(sqrt, 1.0 / r, h) == r
  {
    var c := 1.0 / r;
    assert c * r == 1.0;
    assert c * c * h * h == (c * r) * (c * r);
    SqrtOfSquare(sqrt, 0.0, 0.0);
    assert c * h * h == c * (r * r) == r;
  }

  /** The sphere sag is an even function of the height and is zero on the
      axis. */
  lemma SphereSagSymmetric(sqrt: real -> real, c: real, h: real)
    requires IsSqrt(sqrt) && SphereRadicand(c, h) >= 0.0
    ensures SphereRadicand(c, -h) == SphereRadicand(c, h)
    ensures SphereSag(sqrt, c, -h) == SphereSag(sqrt, c, h)
    ensures SphereSag(sqrt, c, 0.0) == 0.0
  {
    assert c * c * (-h) * (-h) == c * c * h * h;
  }

  /** A flat sphere (`c == 0`, the `r = inf` default) has sag 0 and slope 0
      at every height. */
  lemma FlatSphere(sqrt: real -> real, h: real)
    requires IsSqrt(sqrt)
    ensures SphereRadicand(0.0, h) == 1.0
    ensures SphereSag(sqrt, 0.0, h) == 0.0 && SphereSlope(sqrt, 0.0, h) == 0.0
  {
  }

  /* ----- Conic kernel shared by both aspheres ----- */

  /** `1 - (1+k)*c^2*h^2`, the term under the conic square root. */
  function Radicand(c: real, k: real, h: real): real
  {
    1.0 - (1.0 + k) * c * c * h * h
  }

  /** The conic part of the asphere sag, `c*h^2 / (1 + sqrt(1-(1+k)c^2h^2))`. */
  function ConicSag(sqrt: real -> real, c: real, k: real, h: real): real
    requires IsSqrt(sqrt) && Radicand(c, k, h) >= 0.0
  {
    c * h * h / (1.0 + sqrt(Radicand(c, k, h)))
  }

  /** The slope of the conic in closed form, `c*h / sqrt(1-(1+k)c^2h^2)`. */
  function ConicSlope(sqrt: real -> real, c: real, k: real, h: real): real
    requires IsSqrt(sqrt) && Radicand(c, k, h) > 0.0
  {
    PositiveRoot(sqrt, Radicand(c, k, h));
    c * h / sqrt(Radicand(c, k, h))
  }

  /** The second derivative of the conic in closed form,
      `c / sqrt(1-(1+k)c^2h^2)^3`. */
  function ConicSecond(sqrt: real -> real, c: real, k: real, h: real): real
    requires IsSqrt(sqrt) && Radicand(c, k, h) > 0.0
  {
    var s := sqrt(Radicand(c, k, h));
    PositiveRoot(sqrt, Radicand(c, k, h));
    assert s * s * s > 0.0;
    c / (s * s * s)
  }

  /** The conic sag is zero when flat, and the point `(h, z)` lies on the
      conic `(1+k)*c*z^2 - 2*z + c*h^2 == 0` through the vertex. */
  lemma ConicSagOnConic(sqrt: real -> real, c: real, k: real, h: real)
    requires IsSqrt(sqrt) && Radicand(c, k, h) >= 0.0
    ensures c == 0.0 ==> ConicSag(sqrt, c, k, h) == 0.0
    ensures var z := ConicSag(sqrt, c, k, h);
      (1.0 + k) * c * z * z - 2.0 * z + c * h * h == 0.0
  {
    var s := sqrt(Radicand(c, k, h));
    SagOnConic(c, 1.0 + k, h, s);
  }

  /** The conic slope is zero when flat and satisfies the once-differentiated
      conic equation `z' * (1 - (1+k)*c*z) == c*h`. */
  lemma ConicSlopeImplicit(sqrt: real -> real, c: real, k: real, h: real)
    requires IsSqrt(sqrt) && Radicand(c, k, h) > 0.0
    ensures c == 0.0 ==> ConicSlope(sqrt, c, k, h) == 0.0
    ensures ConicSlope(sqrt, c, k, h) * (1.0 - (1.0 + k) * c * ConicSag(sqrt, c, k, h)) == c * h
  {
    var s := sqrt(Radicand(c, k, h));
    PositiveRoot(sqrt, Radicand(c, k, h));
    SlopeImplicit(c, 1.0 + k, h, s);
  }

  /** The conic second derivative is zero when flat and satisfies the
      twice-differentiated conic equation
      `z'' * (1 - (1+k)*c*z) - (1+k)*c*z'^2 == c`. */
  lemma ConicSecondImplicit(sqrt: real -> real, c: real, k: real, h: real)
    requires IsSqrt(sqrt) && Radicand(c, k, h) > 0.0
    ensures c == 0.0 ==> ConicSecond(sqrt, c, k, h) == 0.0
    ensures ConicSecond(sqrt, c, k, h) * (1.0 - (1.0 + k) * c * ConicSag(sqrt, c, k, h))
            - (1.0 + k) * c * ConicSlope(sqrt, c, k, h) * ConicSlope(sqrt, c, k, h) == c
  {
    var s := sqrt(Radicand(c, k, h));
    PositiveRoot(sqrt, Radicand(c, k, h));
    SecondImplicit(c, 1.0 + k, h, s);
  }

  /** The curvature of the plane curve `z(h)` from its first and second
      derivatives, `z'' / (1 + z'^2)^(3/2)`, with the power `x^(3/2)`
      written as `x * sqrt(x)`. */
  function CurveCurvature(sqrt: real -> real, d1: real, d2: real): real
    requires IsSqrt(sqrt)
  {
    assert 1.0 <= 1.0 + d1 * d1;
    d2 / ((1.0 + d1 * d1) * sqrt(1.0 + d1 * d1))
  }

  /* ----- The aspheric polynomial ----- */

  /** The polynomial whose term `i` is `f(coefs[i], i)`. */
  function TermsOf(coefs: seq<real>, f: (real, nat) -> Term): seq<Term>
  {
    seq(|coefs|, i requires 0 <= i < |coefs| => f(coefs[i], i))
  }

  /** Coefficient `A` at index `i` (counted from 0) of an even asphere is
      the term `A*h^(2(i+1)+2)`: powers 4, 6, 8, ... Its first and second
      derivatives are `(2i+4)*A*h^(2i+3)` and `(2i+3)*(2i+4)*A*h^(2i+2)`. */
  function EvenTerm(a: real, i: nat): Term
  {
    Term(a, 2 * (i + 1) + 2)
  }

  function EvenSlopeTerm(a: real, i: nat): Term
  {
    Term((2 * i + 4) as real * a, 2 * i + 3)
  }

  function EvenSecondTerm(a: real, i: nat): Term
  {
    Term((2 * i + 3) as real * ((2 * i + 4) as real * a), 2 * i + 2)
  }

  /** Coefficient `A` at index `i` of an odd asphere is the term
      `A*h^(i+3)`: powers 3, 4, 5, ... Its derivatives are `(i+3)*A*h^(i+2)`
      and `(i+2)*(i+3)*A*h^(i+1)`. */
  function OddTerm(a: real, i: nat): Term
  {
    Term(a, i + 3)
  }

  function OddSlopeTerm(a: real, i: nat): Term
  {
    Term((i + 3) as real * a, i + 2)
  }

  function OddSecondTerm(a: real, i: nat): Term
  {
    Term((i + 2) as real * ((i + 3) as real * a), i + 1)
  }

  /** The sag polynomials of the two aspheres and their derivatives written
      term by term. */
  function EvenTerms(coefs: seq<real>): seq<Term>
  {
    TermsOf(coefs, EvenTerm)
  }

  function EvenSlopeTerms(coefs: seq<real>): seq<Term>
  {
    TermsOf(coefs, EvenSlopeTerm)
  }

  function EvenSecondTerms(coefs: seq<real>): seq<Term>
  {
    TermsOf(coefs, EvenSecondTerm)
  }

  function OddTerms(coefs: seq<real>): seq<Term>
  {
    TermsOf(coefs, OddTerm)
  }

  function OddSlopeTerms(coefs: seq<real>): seq<Term>
  {
    TermsOf(coefs, OddSlopeTerm)
  }

  function OddSecondTerms(coefs: seq<real>): seq<Term>
  {
    TermsOf(coefs, OddSecondTerm)
  }

  /** Term `i` of each sag polynomial, written out. */
  lemma EvenTermsAt(coefs: seq<real>)
    ensures |EvenTerms(coefs)| == |coefs|
    ensures forall i :: 0 <= i < |coefs| ==> EvenTerms(coefs)[i] == Term(coefs[i], 2 * i + 4)
  {
    forall i | 0 <= i < |coefs|
      ensures EvenTerms(coefs)[i] == Term(coefs[i], 2 * i + 4)
    {
      assert EvenTerms(coefs)[i] == EvenTerm(coefs[i], i);
    }
  }

  lemma OddTermsAt(coefs: seq<real>)
    ensures |OddTerms(coefs)| == |coefs|
    ensures forall i :: 0 <= i < |coefs| ==> OddTerms(coefs)[i] == Term(coefs[i], i + 3)
  {
    forall i | 0 <= i < |coefs|
      ensures OddTerms(coefs)[i] == Term(coefs[i], i + 3)
    {
      assert OddTerms(coefs)[i] == OddTerm(coefs[i], i);
    }
  }

  /** Reading one more coefficient adds one more term to the value; this is
      the step of the accumulation loops. */
  lemma TermsOfSnoc(coefs: seq<real>, f: (real, nat) -> Term, i: nat, h: real)
    requires i < |coefs|
    ensures Eval(TermsOf(coefs[..i + 1], f), h) == Eval(TermsOf(coefs[..i], f), h) + TermValue(f(coefs[i], i), h)
  {
    var p, q := TermsOf(coefs[..i], f), TermsOf(coefs[..i + 1], f);
    assert q == p + [f(coefs[i], i)];
    EvalSnoc(p, f(coefs[i], i), h);
  }

  /** The term-by-term forms are the power-rule derivatives of the sag
      polynomials. */
  lemma EvenSlopeIsDerivative(coefs: seq<real>)
    ensures Derivative(EvenTerms(coefs)) == EvenSlopeTerms(coefs)
  {
    forall i | 0 <= i < |coefs|
      ensures EvenSlopeTerms(coefs)[i] == DerivTerm(EvenTerms(coefs)[i])
    {
      assert EvenTerms(coefs)[i] == EvenTerm(coefs[i], i);
      assert EvenSlopeTerms(coefs)[i] == EvenSlopeTerm(coefs[i], i);
    }
    DerivativeByTerms(EvenTerms(coefs), EvenSlopeTerms(coefs));
  }

  lemma EvenSecondIsDerivative(coefs: seq<real>)
    ensures Derivative(Derivative(EvenTerms(coefs))) == EvenSecondTerms(coefs)
  {
    EvenSlopeIsDerivative(coefs);
    forall i | 0 <= i < |coefs|
      ensures EvenSecondTerms(coefs)[i] == DerivTerm(EvenSlopeTerms(coefs)[i])
    {
      assert EvenSlopeTerms(coefs)[i] == EvenSlopeTerm(coefs[i], i);
      assert EvenSecondTerms(coefs)[i] == EvenSecondTerm(coefs[i], i);
    }
    DerivativeByTerms(EvenSlopeTerms(coefs), EvenSecondTerms(coefs));
  }

  lemma OddSlopeIsDerivative(coefs: seq<real>)
    ensures Derivative(OddTerms(coefs)) == OddSlopeTerms(coefs)
  {
    forall i | 0 <= i < |coefs|
      ensures OddSlopeTerms(coefs)[i] == DerivTerm(OddTerms(coefs)[i])
    {
      assert OddTerms(coefs)[i] == OddTerm(coefs[i], i);
      assert OddSlopeTerms(coefs)[i] == OddSlopeTerm(coefs[i], i);
    }
    DerivativeByTerms(OddTerms(coefs), OddSlopeTerms(coefs));
  }

  lemma OddSecondIsDerivative(coefs: seq<real>)
    ensures Derivative(Derivative(OddTerms(coefs))) == OddSecondTerms(coefs)
  {
    OddSlopeIsDerivative(coefs);
    forall i | 0 <= i < |coefs|
      ensures OddSecondTerms(coefs)[i] == DerivTerm(OddSlopeTerms(coefs)[i])
    {
      assert OddSlopeTerms(coefs)[i] == OddSlopeTerm(coefs[i], i);
      assert OddSecondTerms(coefs)[i] == OddSecondTerm(coefs[i], i);
    }
    DerivativeByTerms(OddSlopeTerms(coefs), OddSecondTerms(coefs));
  }

  /** Every power of an even asphere's polynomial is even, so the polynomial
      does not see the sign of `h`. */
  lemma {:induction false} EvenPolynomialSymmetric(coefs: seq<real>, h: real)
    ensures Eval(EvenTerms(coefs), -h) == Eval(EvenTerms(coefs), h)
  {
    if coefs != [] {
      var n := |coefs| - 1;
      assert EvenTerms(coefs)[..n] == EvenTerms(coefs[..n]);
      EvenPolynomialSymmetric(coefs[..n], h);
      PowEven(h, n + 2);
      EvenTermsAt(coefs);
    }
  }

  /** A polynomial without a constant term vanishes at `h = 0`. */
  lemma {:induction false} EvalAtZero(p: seq<Term>)
    requires forall i :: 0 <= i < |p| ==> p[i].exp >= 1
    ensures Eval(p, 0.0) == 0.0
  {
    if p != [] {
      EvalAtZero(p[..|p| - 1]);
      var e := p[|p| - 1].exp;
      assert Pow(0.0, e) == 0.0 * Pow(0.0, e - 1);
    }
  }

  /** Differentiating lowers every power by one. */
  lemma DerivativeLowersPowers(p: seq<Term>, m: nat)
    requires forall i :: 0 <= i < |p| ==> p[i].exp >= m + 1
    ensures |Derivative(p)| == |p|
    ensures forall i :: 0 <= i < |p| ==> Derivative(p)[i].exp >= m
  {
    if p != [] {
      DerivativeAt(p, 0);
    }
    forall i | 0 <= i < |p|
      ensures Derivative(p)[i].exp >= m
    {
      DerivativeAt(p, i);
    }
  }

  /** If every power is at least 3, both derivatives vanish at 0. */
  lemma DerivativesVanishAtZero(p: seq<Term>)
    requires forall i :: 0 <= i < |p| ==> p[i].exp >= 3
    ensures Eval(Derivative(p), 0.0) == 0.0
    ensures Eval(Derivative(Derivative(p)), 0.0) == 0.0
  {
    DerivativeLowersPowers(p, 2);
    DerivativeLowersPowers(Derivative(p), 1);
    EvalAtZero(Derivative(p));
    EvalAtZero(Derivative(Derivative(p)));
  }

  /** Both derivative polynomials of either asphere vanish on the axis: the
      lowest powers after differentiating twice are `h^2` (even) and `h^1`
      (odd). */
  lemma DerivativesVanishAtVertex(coefs: seq<real>)
    ensures Eval(Derivative(EvenTerms(coefs)), 0.0) == 0.0
    ensures Eval(Derivative(Derivative(EvenTerms(coefs))), 0.0) == 0.0
    ensures Eval(Derivative(OddTerms(coefs)), 0.0) == 0.0
    ensures Eval(Derivative(Derivative(OddTerms(coefs))), 0.0) == 0.0
  {
    EvenTermsAt(coefs);
    OddTermsAt(coefs);
    DerivativesVanishAtZero(EvenTerms(coefs));
    DerivativesVanishAtZero(OddTerms(coefs));
  }

  /** Nine zero coefficients, the default of both asphere constructors. */
  function DefaultCoefs(): (z: seq<real>)
    ensures |z| == 9 && forall i :: 0 <= i < |z| ==> z[i] == 0.0
  {
    seq(9, _ => 0.0)
  }

  /** With all coefficients zero, the polynomial and its two derivatives are
      zero at every height, for both exponent mappings. */
  lemma ZeroPolynomial(coefs: seq<real>, h: real)
    requires forall i :: 0 <= i < |coefs| ==> coefs[i] == 0.0
    ensures Eval(EvenTerms(coefs), h) == 0.0
    ensures Eval(Derivative(EvenTerms(coefs)), h) == 0.0
    ensures Eval(Derivative(Derivative(EvenTerms(coefs))), h) == 0.0
    ensures Eval(OddTerms(coefs), h) == 0.0
    ensures Eval(Derivative(OddTerms(coefs)), h) == 0.0
    ensures Eval(Derivative(Derivative(OddTerms(coefs))), h) == 0.0
  {
    var e, o := EvenTerms(coefs), OddTerms(coefs);
    EvenTermsAt(coefs);
    OddTermsAt(coefs);
    EvalZeroCoefs(e, h);
    EvalZeroCoefs(o, h);
    DerivativeZeroCoefs(e);
    DerivativeZeroCoefs(o);
    EvalZeroCoefs(Derivative(e), h);
    EvalZeroCoefs(Derivative(o), h);
    DerivativeZeroCoefs(Derivative(e));
    DerivativeZeroCoefs(Derivative(o));
    EvalZeroCoefs(Derivative(Derivative(e)), h);
    EvalZeroCoefs(Derivative(Derivative(o)), h);
  }

  /** An odd asphere with the single coefficient `1e-4`, flat base (`c = 0`),
      at height 5: the sag is `1e-4 * 5^3 = 0.0125`. */
  lemma OddSagExample()
    ensures Eval(OddTerms([0.0001]), 5.0) == 0.0125
  {
    OddTermsAt([0.0001]);
    assert OddTerms([0.0001]) == [Term(0.0001, 3)];
    assert Pow(5.0, 3) == 125.0;
  }

  /* ----- The asphere profile ----- */

  /** Sag of an asphere: the conic plus the polynomial `terms`. */
  function AsphereSag(sqrt: real -> real, c: real, k: real, terms: seq<Term>, h: real): real
    requires IsSqrt(sqrt) && Radicand(c, k, h) >= 0.0
  {
    ConicSag(sqrt, c, k, h) + Eval(terms, h)
  }

  /** First derivative of the asphere sag. */
  function AsphereSlope(sqrt: real -> real, c: real, k: real, terms: seq<Term>, h: real): real
    requires IsSqrt(sqrt) && Radicand(c, k, h) > 0.0
  {
    ConicSlope(sqrt, c, k, h) + Eval(Derivative(terms), h)
  }

  /** Second derivative of the asphere sag. */
  function AsphereSecond(sqrt: real -> real, c: real, k: real, terms: seq<Term>, h: real): real
    requires IsSqrt(sqrt) && Radicand(c, k, h) > 0.0
  {
    ConicSecond(sqrt, c, k, h) + Eval(Derivative(Derivative(terms)), h)
  }

  /** Local curvature of the asphere profile at height `h`. */
  function AsphereCurvature(sqrt: real -> real, c: real, k: real, terms: seq<Term>, h: real): real
    requires IsSqrt(sqrt) && Radicand(c, k, h) > 0.0
  {
    CurveCurvature(sqrt, AsphereSlope(sqrt, c, k, terms, h), AsphereSecond(sqrt, c, k, terms, h))
  }

  /** The conic radicand and sag only see `h^2`. */
  lemma ConicSymmetric(sqrt: real -> real, c: real, k: real, h: real)
    requires IsSqrt(sqrt) && Radicand(c, k, h) >= 0.0
    ensures Radicand(c, k, -h) == Radicand(c, k, h)
    ensures ConicSag(sqrt, c, k, -h) == ConicSag(sqrt, c, k, h)
  {
    assert (1.0 + k) * c * c * (-h) * (-h) == (1.0 + k) * c * c * h * h;
  }

  /** An even asphere's sag is an even function of `h` and zero on the
      axis. */
  lemma EvenSagSymmetric(sqrt: real -> real, c: real, k: real, coefs: seq<real>, h: real)
    requires IsSqrt(sqrt) && Radicand(c, k, h) >= 0.0
    ensures Radicand(c, k, -h) == Radicand(c, k, h)
    ensures AsphereSag(sqrt, c, k, EvenTerms(coefs), -h) == AsphereSag(sqrt, c, k, EvenTerms(coefs), h)
    ensures Radicand(c, k, 0.0) == 1.0 && AsphereSag(sqrt, c, k, EvenTerms(coefs), 0.0) == 0.0
  {
    ConicSymmetric(sqrt, c, k, h);
    EvenPolynomialSymmetric(coefs, h);
    EvenTermsAt(coefs);
    EvalAtZero(EvenTerms(coefs));
  }

  /** A flat conic (`c = 0`, from `r = inf`) with zero coefficients, as the
      asphere constructors build by default, has sag, slope and second
      derivative 0 at every height, for either exponent mapping. */
  lemma FlatDefaultAsphere(sqrt: real -> real, k: real, coefs: seq<real>, h: real)
    requires IsSqrt(sqrt)
    requires forall i :: 0 <= i < |coefs| ==> coefs[i] == 0.0
    ensures Radicand(0.0, k, h) == 1.0
    ensures AsphereSag(sqrt, 0.0, k, EvenTerms(coefs), h) == 0.0
    ensures AsphereSlope(sqrt, 0.0, k, EvenTerms(coefs), h) == 0.0
    ensures AsphereSecond(sqrt, 0.0, k, EvenTerms(coefs), h) == 0.0
    ensures AsphereSag(sqrt, 0.0, k, OddTerms(coefs), h) == 0.0
    ensures AsphereSlope(sqrt, 0.0, k, OddTerms(coefs), h) == 0.0
    ensures AsphereSecond(sqrt, 0.0, k, OddTerms(coefs), h) == 0.0
    ensures AsphereCurvature(sqrt, 0.0, k, EvenTerms(coefs), h) == 0.0
    ensures AsphereCurvature(sqrt, 0.0, k, OddTerms(coefs), h) == 0.0
  {
    ZeroPolynomial(coefs, h);
  }

  /** With `k = 0` the conic is the sphere: the asphere conic sag and slope
      equal the sphere's sag and two-term slope. */
  lemma ConicWithZeroKIsSphere(sqrt: real -> real, c: real, h: real)
    requires IsSqrt(sqrt) && SphereRadicand(c, h) >= 0.0
    ensures Radicand(c, 0.0, h) == SphereRadicand(c, h)
    ensures ConicSag(sqrt, c, 0.0, h) == SphereSag(sqrt, c, h)
    ensures SphereRadicand(c, h) > 0.0 ==> ConicSlope(sqrt, c, 0.0, h) == SphereSlope(sqrt, c, h)
  {
  }

  /** An even asphere with `k = 0` and zero coefficients has the sag of the
      sphere with the same curvature. */
  lemma EvenMatchesSphere(sqrt: real -> real, c: real, coefs: seq<real>, h: real)
    requires IsSqrt(sqrt) && SphereRadicand(c, h) >= 0.0
    requires forall i :: 0 <= i < |coefs| ==> coefs[i] == 0.0
    ensures Radicand(c, 0.0, h) == SphereRadicand(c, h)
    ensures AsphereSag(sqrt, c, 0.0, EvenTerms(coefs), h) == SphereSag(sqrt, c, h)
  {
    ConicWithZeroKIsSphere(sqrt, c, h);
    ZeroPolynomial(coefs, h);
  }

  /** On the axis the slope is 0 and the second derivative is `c`, so the
      local curvature of every asphere, whatever `k` and its coefficients,
      is the vertex curvature `c`. */
  lemma VertexCurvature(sqrt: real -> real, c: real, k: real, coefs: seq<real>)
    requires IsSqrt(sqrt)
    ensures Radicand(c, k, 0.0) == 1.0
    ensures AsphereSlope(sqrt, c, k, EvenTerms(coefs), 0.0) == 0.0
    ensures AsphereCurvature(sqrt, c, k, EvenTerms(coefs), 0.0) == c
    ensures AsphereSlope(sqrt, c, k, OddTerms(coefs), 0.0) == 0.0
    ensures AsphereCurvature(sqrt, c, k, OddTerms(coefs), 0.0) == c
  {
    DerivativesVanishAtVertex(coefs);
    VertexOfTerms(sqrt, c, k, EvenTerms(coefs));
    VertexOfTerms(sqrt, c, k, OddTerms(coefs));
  }

  /** On the axis, a conic plus a polynomial whose two derivatives vanish
      there has slope 0 and local curvature `c`. */
  lemma VertexOfTerms(sqrt: real -> real, c: real, k: real, terms: seq<Term>)
    requires IsSqrt(sqrt)
    requires Eval(Derivative(terms), 0.0) == 0.0 && Eval(Derivative(Derivative(terms)), 0.0) == 0.0
    ensures Radicand(c, k, 0.0) == 1.0
    ensures AsphereSlope(sqrt, c, k, terms, 0.0) == 0.0
    ensures AsphereCurvature(sqrt, c, k, terms, 0.0) == c
  {
    assert Radicand(c, k, 0.0) == 1.0;
    SqrtOfSquare(sqrt, 1.0, 1.0);
    assert ConicSlope(sqrt, c, k, 0.0) == 0.0;
    assert ConicSecond(sqrt, c, k, 0.0) == c;
    CurvatureOfSquare(sqrt, 0.0, c, 1.0);
  }

  /** The conic with `k = 0` is a circle: its local curvature is `c` at
      every height where it is defined. */
  lemma CircleCurvatureIsConstant(sqrt: real -> real, c: real, h: real)
    requires IsSqrt(sqrt) && Radicand(c, 0.0, h) > 0.0
    ensures CurveCurvature(sqrt, ConicSlope(sqrt, c, 0.0, h), ConicSecond(sqrt, c, 0.0, h)) == c
  {
    var s := sqrt(Radicand(c, 0.0, h));
    PositiveRoot(sqrt, Radicand(c, 0.0, h));
    assert s * s == 1.0 - c * c * h * h;
    var d1, d2 := ConicSlope(sqrt, c, 0.0, h), ConicSecond(sqrt, c, 0.0, h);
    assert d1 == c * h / s;
    assert d2 == c / (s * s * s);
    CircleCurvatureAlgebra(sqrt, c, h, s, d1, d2);
  }

  lemma CircleCurvatureAlgebra(sqrt: real -> real, c: real, h: real, s: real, d1: real, d2: real)
    requires IsSqrt(sqrt) && 0.0 < s && s * s == 1.0 - c * c * h * h
    requires d1 == c * h / s && d2 == c / (s * s * s)
    ensures CurveCurvature(sqrt, d1, d2) == c
  {
    var g := 1.0 / s;
    assert g * s == 1.0;
    assert d1 == c * h * g;
    // 1 + d1^2 = (s^2 + c^2 h^2) / s^2 = g^2
    OnePlusSlopeSquared(c, h, s, g, d1);
    CurvatureOfSquare(sqrt, d1, d2, g);
    CubeQuotient(c, s, g, d2);
  }

  /** When `1 + d1^2` is the square of `g >= 0`, the curvature denominator
      `(1 + d1^2)^(3/2)` is `g^3`. */
  lemma CurvatureOfSquare(sqrt: real -> real, d1: real, d2: real, g: real)
    requires IsSqrt(sqrt) && 0.0 <= g && 1.0 + d1 * d1 == g * g
    ensures CurveCurvature(sqrt, d1, d2) == d2 / ((g * g) * g)
  {
    var q := 1.0 + d1 * d1;
    SqrtOfSquare(sqrt, q, g);
    assert q * sqrt(q) == (g * g) * g;
  }

  lemma OnePlusSlopeSquared(c: real, h: real, s: real, g: real, d1: real)
    requires 0.0 < s && s * s == 1.0 - c * c * h * h && g * s == 1.0 && d1 == c * h * g
    ensures 0.0 <= g && 1.0 + d1 * d1 == g * g
  {
    assert d1 * d1 == (c * h) * (c * h) * (g * g);
    calc {
      1.0 + d1 * d1;
      (g * s) * (g * s) + (c * h) * (c * h) * (g * g);
      (g * g) * (s * s + c * c * h * h);
      g * g;
    }
  }

  lemma CubeQuotient(c: real, s: real, g: real, d2: real)
    requires 0.0 < s && g * s == 1.0 && d2 == c / (s * s * s)
    ensures (g * g) * g != 0.0 && d2 / ((g * g) * g) == c
  {
    assert (g * g * g) * (s * s * s) == (g * s) * (g * s) * (g * s);
    assert d2 * (s * s * s) == c;
    assert d2 == c * (g * g * g);
  }

  /* ----- Algebra behind the conic formulas -----
     `s` stands for the square root of the radicand and `K` for `1 + k`. */

  lemma SagOnConic(c: real, K: real, h: real, s: real)
    requires 0.0 <= s && s * s == 1.0 - K * c * c * h * h
    ensures var z := c * h * h / (1.0 + s);
      K * c * z * z - 2.0 * z + c * h * h == 0.0
  {
    var D := 1.0 + s;
    var z := c * h * h / D;
    assert z * D == c * h * h;
    var T := K * c * z * z - 2.0 * z + c * h * h;
    calc {
      T * (D * D);
      K * c * (z * D) * (z * D) - 2.0 * (z * D) * D + c * h * h * (D * D);
      K * c * (c * h * h) * (c * h * h) - 2.0 * (c * h * h) * D + c * h * h * (D * D);
      (c * h * h) * (K * c * c * h * h - 2.0 * D + D * D);
      (c * h * h) * (K * c * c * h * h - 1.0 + s * s);
      0.0;
    }
    assert D * D > 0.0;
  }

  /** With `s == sqrt(1 - K c^2 h^2)`: `1 - K*c*z == s` at the sag point. */
  lemma OneMinusKcz(c: real, K: real, h: real, s: real)
    requires 0.0 <= s && s * s == 1.0 - K * c * c * h * h
    ensures 1.0 - K * c * (c * h * h / (1.0 + s)) == s
  {
    var D := 1.0 + s;
    var z := c * h * h / D;
    assert z * D == c * h * h;
    calc {
      (1.0 - K * c * z) * D;
      D - K * c * (z * D);
      D - K * c * (c * h * h);
      1.0 + s - (1.0 - s * s);
      s * D;
    }
  }

  lemma SlopeImplicit(c: real, K: real, h: real, s: real)
    requires 0.0 < s && s * s == 1.0 - K * c * c * h * h
    ensures (c * h / s) * (1.0 - K * c * (c * h * h / (1.0 + s))) == c * h
  {
    OneMinusKcz(c, K, h, s);
  }

  lemma SecondImplicit(c: real, K: real, h: real, s: real)
    requires 0.0 < s && s * s == 1.0 - K * c * c * h * h
    ensures (c / (s * s * s)) * (1.0 - K * c * (c * h * h / (1.0 + s)))
            - K * c * (c * h / s) * (c * h / s) == c
  {
    OneMinusKcz(c, K, h, s);
    var d := c * h / s;
    assert d * s == c * h;
    var e := c / (s * s * s);
    assert e * (s * s * s) == c;
    calc {
      (e * s - K * c * d * d) * (s * s);
      e * (s * s * s) - K * c * (d * s) * (d * s);
      c - K * c * (c * h) * (c * h);
      c * (1.0 - K * c * c * h * h);
      c * (s * s);
    }
  }

  /** The source's two-term first derivative of the conic equals `c*h/s`. */
  lemma SlopeTerms(c: real, k: real, h: real, rt: real)
    requires 0.0 < rt && rt * rt == 1.0 - (1.0 + k) * c * c * h * h
    ensures 2.0 * c * h / (rt + 1.0)
            + c * c * c * (h * h * h) * (k + 1.0) / (rt * ((rt + 1.0) * (rt + 1.0)))
            == c * h / rt
  {
    var p := rt + 1.0;
    var z1 := 2.0 * c * h / p;
    var z2 := c * c * c * (h * h * h) * (k + 1.0) / (rt * (p * p));
    var M := rt * (p * p);
    assert z1 * p == 2.0 * c * h;
    assert z2 * M == c * c * c * (h * h * h) * (k + 1.0);
    assert (c * h / rt) * rt == c * h;
    calc {
      (z1 + z2) * M;
      (z1 * p) * (rt * p) + z2 * M;
      2.0 * c * h * (rt * p) + c * h * ((1.0 + k) * c * c * h * h);
      c * h * (2.0 * rt * p + (1.0 - rt * rt));
      c * h * (p * p);
      ((c * h / rt) * rt) * (p * p);
      (c * h / rt) * M;
    }
    assert M > 0.0;
  }

  /** `Sphere.deriv_2nd` is absent from the source; for the aspheres the
      conic part of `deriv_2nd` is the four terms `z1 + z2 + z3 + z4` below,
      with `K` for `k + 1` and `rt` for the square root of the radicand. */
  function SecondTerms(c: real, K: real, h: real, rt: real): real
    requires 0.0 < rt && rt * rt == 1.0 - K * c * c * h * h
  {
    SecondTermsWith(c, K, h, rt, rt + 1.0)
  }

  /** The four terms with `p` naming `rt + 1`. The fourth term divides by
      `c^2 h^2 K - 1`, which is `-rt^2`. */
  function SecondTermsWith(c: real, K: real, h: real, rt: real, p: real): real
    requires 0.0 < rt && rt * rt == 1.0 - K * c * c * h * h && p == rt + 1.0
  {
    SecondDenominators(c, K, h, rt, p);
    var z1 := 2.0 * c / p;
    var z2 := 5.0 * (c * c * c) * (h * h) * K / (rt * (p * p));
    var z3 := (c * c * c * c * c) * (h * h * h * h) * (K * K) / ((rt * rt * rt) * (p * p));
    var z4 := -2.0 * (c * c * c * c * c) * (h * h * h * h) * (K * K)
              / ((c * c * h * h * K - 1.0) * (p * p * p));
    z1 + z2 + z3 + z4
  }

  lemma SecondDenominators(c: real, K: real, h: real, s: real, p: real)
    requires 0.0 < s && s * s == 1.0 - K * c * c * h * h && p == s + 1.0
    ensures p != 0.0 && s * (p * p) != 0.0 && (s * s * s) * (p * p) != 0.0
    ensures (c * c * h * h * K - 1.0) * (p * p * p) != 0.0
  {
    assert p * p > 0.0;
    assert p * p * p > 0.0;
    assert s * s > 0.0;
    assert s * s * s > 0.0;
    NegativeSquare(c * c * h * h * K - 1.0, s);
    NegativeTimesPositive(c * c * h * h * K - 1.0, p * p * p);
  }

  /** The negative of a positive square is negative (shown through the
      cube, which the solver bounds more readily). */
  lemma NegativeSquare(v: real, s: real)
    requires 0.0 < s && v == -(s * s)
    ensures v < 0.0
  {
    assert (v + s * s) * s == 0.0;
    assert v * s + s * s * s == 0.0;
    assert s * s * s > 0.0;
    assert v * s < 0.0;
  }

  lemma NegativeTimesPositive(v: real, q: real)
    requires v < 0.0 && 0.0 < q
    ensures v * q < 0.0
  {
  }

  /** The four terms add up to `c / rt^3`. */
  lemma SecondTermsClosedForm(c: real, K: real, h: real, rt: real)
    requires 0.0 < rt && rt * rt == 1.0 - K * c * c * h * h
    ensures SecondTerms(c, K, h, rt) == c / (rt * rt * rt)
  {
    SecondTermsAlgebra(c, K, h, rt, rt + 1.0, c * c * h * h * K);
  }

  /** The algebra of `SecondTermsClosedForm` with `u` for `K c^2 h^2`. */
  lemma SecondTermsAlgebra(c: real, K: real, h: real, s: real, p: real, u: real)
    requires 0.0 < s && s * s == 1.0 - K * c * c * h * h && p == s + 1.0
    requires u == c * c * h * h * K
    ensures SecondTermsWith(c, K, h, s, p) == c / (s * s * s)
  {
    SecondTermsSum(c, K, h, s, p, u);
  }

  lemma SecondTermsSum(c: real, K: real, h: real, s: real, p: real, u: real)
    requires 0.0 < s && s * s == 1.0 - K * c * c * h * h && p == s + 1.0
    requires u == c * c * h * h * K
    ensures p != 0.0 && s * (p * p) != 0.0 && (s * s * s) * (p * p) != 0.0
    ensures (c * c * h * h * K - 1.0) * (p * p * p) != 0.0
    ensures 2.0 * c / p
            + 5.0 * (c * c * c) * (h * h) * K / (s * (p * p))
            + (c * c * c * c * c) * (h * h * h * h) * (K * K) / ((s * s * s) * (p * p))
            + -2.0 * (c * c * c * c * c) * (h * h * h * h) * (K * K)
              / ((c * c * h * h * K - 1.0) * (p * p * p))
            == c / (s * s * s)
  {
    SecondDenominators(c, K, h, s, p);
    SecondTermTwo(c, K, h, u, s * (p * p));
    SecondTermThree(c, K, h, u, (s * s * s) * (p * p));
    SecondTermFour(c, K, h, u, p);
    SecondTermsInUnits(c, u, s, p);
    SumOfEquals(2.0 * c / p,
                5.0 * (c * c * c) * (h * h) * K / (s * (p * p)),
                (c * c * c * c * c) * (h * h * h * h) * (K * K) / ((s * s * s) * (p * p)),
                -2.0 * (c * c * c * c * c) * (h * h * h * h) * (K * K)
                  / ((c * c * h * h * K - 1.0) * (p * p * p)),
                5.0 * (c * u) / (s * (p * p)),
                c * u * u / ((s * s * s) * (p * p)),
                -2.0 * (c * u * u) / ((u - 1.0) * (p * p * p)),
                c / (s * s * s));
  }

  lemma SumOfEquals(a1: real, a2: real, a3: real, a4: real, b2: real, b3: real, b4: real, r: real)
    requires a2 == b2 && a3 == b3 && a4 == b4 && a1 + b2 + b3 + b4 == r
    ensures a1 + a2 + a3 + a4 == r
  {
  }

  lemma SecondTermTwo(c: real, K: real, h: real, u: real, d: real)
    requires u == c * c * h * h * K && d != 0.0
    ensures 5.0 * (c * c * c) * (h * h) * K / d == 5.0 * (c * u) / d
  {
    assert 5.0 * (c * c * c) * (h * h) * K == 5.0 * (c * u);
  }

  lemma SecondTermThree(c: real, K: real, h: real, u: real, d: real)
    requires u == c * c * h * h * K && d != 0.0
    ensures (c * c * c * c * c) * (h * h * h * h) * (K * K) / d == c * u * u / d
  {
    assert c * u * u == c * (c * c * h * h * K) * u;
    assert (c * c * c * c * c) * (h * h * h * h) * (K * K) == c * u * u;
  }

  lemma SecondTermFour(c: real, K: real, h: real, u: real, p: real)
    requires u == c * c * h * h * K && (u - 1.0) * (p * p * p) != 0.0
    ensures -2.0 * (c * c * c * c * c) * (h * h * h * h) * (K * K) / ((c * c * h * h * K - 1.0) * (p * p * p))
            == -2.0 * (c * u * u) / ((u - 1.0) * (p * p * p))
  {
    assert c * u * u == c * (c * c * h * h * K) * u;
    assert (c * c * c * c * c) * (h * h * h * h) * (K * K) == c * u * u;
  }

  lemma DivTimes(a: real, b: real, m: real, M: real)
    requires b != 0.0 && M == b * m
    ensures (a / b) * M == a * m
  {
    assert (a / b) * b == a;
    assert (a / b) * (b * m) == ((a / b) * b) * m;
  }

  lemma CancelFactor(x: real, y: real, M: real)
    requires M != 0.0 && x * M == y * M
    ensures x == y
  {
    assert (x - y) * M == 0.0;
  }

  lemma SumTimes(a: real, b: real, c: real, d: real, M: real)
    ensures (a + b + c + d) * M == a * M + b * M + c * M + d * M
  {
  }

  lemma SecondTermsPolynomial(c: real, u: real, s: real, p: real)
    requires u == 1.0 - s * s && p == s + 1.0
    ensures 2.0 * c * ((s * s * s) * (p * p)) + 5.0 * (c * u) * ((s * s) * p)
            + c * u * u * p + -2.0 * (c * u * u) * (-s)
            == c * (p * p * p)
  {
    var w := 1.0 - s;
    assert u == w * p;
    calc {
      2.0 * (s * s * s) * (p * p) + 5.0 * u * (s * s) * p + u * u * p + 2.0 * u * u * s;
      p * p * (2.0 * s * s * s + 5.0 * w * s * s + w * w * p + 2.0 * w * w * s);
      p * p * p;
    }
    assert 2.0 * c * ((s * s * s) * (p * p)) + 5.0 * (c * u) * ((s * s) * p)
            + c * u * u * p + -2.0 * (c * u * u) * (-s)
        == c * (2.0 * (s * s * s) * (p * p) + 5.0 * u * (s * s) * p + u * u * p + 2.0 * u * u * s);
  }

  /** The identity behind `SecondTermsClosedForm`, with `u` for
      `(1+k) c^2 h^2`, which is `1 - s^2`, and `p` for `s + 1`. */
  lemma SecondTermsInUnits(c: real, u: real, s: real, p: real)
    requires 0.0 < s && u == 1.0 - s * s && p == s + 1.0
    ensures u - 1.0 != 0.0
    ensures 2.0 * c / p
            + 5.0 * (c * u) / (s * (p * p))
            + c * u * u / ((s * s * s) * (p * p))
            + -2.0 * (c * u * u) / ((u - 1.0) * (p * p * p))
            == c / (s * s * s)
  {
    assert u - 1.0 == -(s * s);
    var M := (s * s * s) * (p * p * p);
    assert p * p > 0.0;
    assert M > 0.0;
    assert M == p * ((s * s * s) * (p * p));
    DivTimes(2.0 * c, p, (s * s * s) * (p * p), M);
    assert M == (s * (p * p)) * ((s * s) * p);
    DivTimes(5.0 * (c * u), s * (p * p), (s * s) * p, M);
    assert M == ((s * s * s) * (p * p)) * p;
    DivTimes(c * u * u, (s * s * s) * (p * p), p, M);
    NegSquareFactor(s, p, u - 1.0);
    DivTimes(-2.0 * (c * u * u), (u - 1.0) * (p * p * p), -s, M);
    DivTimes(c, s * s * s, p * p * p, M);
    SecondTermsPolynomial(c, u, s, p);
    SumTimes(2.0 * c / p, 5.0 * (c * u) / (s * (p * p)), c * u * u / ((s * s * s) * (p * p)),
             -2.0 * (c * u * u) / ((u - 1.0) * (p * p * p)), M);
    CancelFactor(2.0 * c / p
            + 5.0 * (c * u) / (s * (p * p))
            + c * u * u / ((s * s * s) * (p * p))
            + -2.0 * (c * u * u) / ((u - 1.0) * (p * p * p)), c / (s * s * s), M);
  }

  lemma NegSquareFactor(s: real, p: real, v: real)
    requires v == -(s * s)
    ensures (s * s * s) * (p * p * p) == (v * (p * p * p)) * (-s)
  {
  }
}
