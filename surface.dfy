/** The three surface kinds of the lens drawing program: a sphere (`SPH`),
    an even asphere (`ASP`) and an odd asphere (`ODD`). Each is an object
    whose fields the lens loader overwrites in place; the sag and its
    derivatives are read from the fields. The aspheric polynomial is
    accumulated coefficient by coefficient in a loop, proved against the
    formal polynomial of the `Profile` module. */
module Surface {
  import opened Numbers
  import opened Polynomial
  import opened Profile

  /** The observable state of one surface object. */
  datatype SurfaceData =
    | SphereData(r: Extended, innerD: real, outerD: real)
    | EvenData(r: Extended, k: real, coefs: seq<real>, innerD: real, outerD: real)
    | OddData(r: Extended, k: real, coefs: seq<real>, innerD: real, outerD: real)
  {
    /** The `type` tag of the object. */
    function TypeName(): string
    {
      match this
      case SphereData(_, _, _) => "SPH"
      case EvenData(_, _, _, _, _) => "ASP"
      case OddData(_, _, _, _, _) => "ODD"
    }
  }

  class Sphere {
    var r: Extended
    var innerD: real
    var outerD: real

    /** The defaults are a flat surface (`r = inf`) with zero diameters. */
    constructor (r: Extended := Infinity, innerD: real := 0.0, outerD: real := 0.0)
      ensures Data() == SphereData(r, innerD, outerD)
    {
      this.r := r;
      this.innerD := innerD;
      this.outerD := outerD;
    }

    function Data(): SurfaceData
      reads this
    {
      SphereData(r, innerD, outerD)
    }

    /** `c`, the vertex curvature: 0 when flat, infinite for a zero radius,
        and otherwise the reciprocal of the radius. */
    function C(): (c: Extended)
      reads this
      ensures r == Infinity ==> c == Finite(0.0)
      ensures r == Finite(0.0) ==> c == Infinity
      ensures r.Finite? && r.value != 0.0 ==> c.Finite? && c.value != 0.0 && c.value * r.value == 1.0
    {
      SphereCurvature(r)
    }

    function Sag(sqrt: real -> real, h: real): real
      reads this
      requires IsSqrt(sqrt) && C().Finite? && SphereRadicand(C().value, h) >= 0.0
    {
      SphereSag(sqrt, C().value, h)
    }

    function Deriv1st(sqrt: real -> real, h: real): real
      reads this
      requires IsSqrt(sqrt) && C().Finite? && SphereRadicand(C().value, h) > 0.0
    {
      SphereSlope(sqrt, C().value, h)
    }

    /** `local_radius`: the base radius, whatever the height. It is infinite
        exactly when the vertex curvature is 0, and otherwise the reciprocal
        of a non-zero finite curvature. */
    function LocalRadius(h: real): (lr: Extended)
      reads this
      ensures lr == Infinity <==> C() == Finite(0.0)
      ensures C().Finite? && C().value != 0.0 ==> lr.Finite? && lr.value * C().value == 1.0
      ensures C() == Infinity ==> lr == Finite(0.0)
    {
      r
    }
  }

  class EvenAsphere {
    var r: Extended
    var k: real
    var coefs: seq<real>
    var innerD: real
    var outerD: real

    /** The defaults are a flat surface with `k = 0`, nine zero coefficients
        and zero diameters. */
    constructor (r: Extended := Infinity, k: real := 0.0, coefs: Option<seq<real>> := None,
                 innerD: real := 0.0, outerD: real := 0.0)
      ensures Data() == EvenData(r, k, if coefs.None? then DefaultCoefs() else coefs.value, innerD, outerD)
    {
      this.r := r;
      this.k := k;
      if coefs.None? {
        this.coefs := DefaultCoefs();
      } else {
        this.coefs := coefs.value;
      }
      this.innerD := innerD;
      this.outerD := outerD;
    }

    function Data(): SurfaceData
      reads this
    {
      EvenData(r, k, coefs, innerD, outerD)
    }

    /** `c`, the vertex curvature: `1/r`, with `1/inf == 0` and infinity
        for the caught division by a zero radius; the same value as the
        sphere's `c`. */
    function C(): (c: Extended)
      reads this
      ensures c == SphereCurvature(r)
      ensures c.Finite? <==> r != Finite(0.0)
      ensures r.Finite? && r.value != 0.0 ==> c.value * r.value == 1.0
    {
      CurvaturesAgree(r);
      ConicCurvature(r)
    }

    /** `sag`: the conic sag plus `A * h^(2(i+1)+2)` for every coefficient. */
    method Sag(sqrt: real -> real, h: real) returns (z: real)
      requires IsSqrt(sqrt) && C().Finite? && Radicand(C().value, k, h) >= 0.0
      ensures z == AsphereSag(sqrt, C().value, k, EvenTerms(coefs), h)
    {
      var c := C().value;
      var zConic := ConicSag(sqrt, c, k, h);
      var zPol := 0.0;
      var i := 0;
      while i < |coefs|
        invariant 0 <= i <= |coefs|
        invariant zPol == Eval(EvenTerms(coefs[..i]), h)
      {
        var e: nat := 2 * (i + 1) + 2;
        var term := coefs[i] * Pow(h, e);
        EvenSagStep(coefs, i, e, h, term);
        zPol := zPol + term;
        i := i + 1;
      }
      assert coefs[..i] == coefs;
      z := zConic + zPol;
    }

    /** `deriv_1st`: the two conic terms plus `e * A * h^(e-1)` for the
        power `e = 2(i+1)+2` of every coefficient. */
    method Deriv1st(sqrt: real -> real, h: real) returns (d: real)
      requires IsSqrt(sqrt) && C().Finite? && Radicand(C().value, k, h) > 0.0
      ensures d == AsphereSlope(sqrt, C().value, k, EvenTerms(coefs), h)
    {
      var c := C().value;
      var conic := SourceConicSlope(sqrt, c, k, h);
      var zPol := 0.0;
      var i := 0;
      while i < |coefs|
        invariant 0 <= i <= |coefs|
        invariant zPol == Eval(EvenSlopeTerms(coefs[..i]), h)
      {
        var e: nat := 2 * (i + 1) + 2;
        var term := e as real * coefs[i] * Pow(h, e - 1);
        EvenSlopeStep(coefs, i, e, h, term);
        zPol := zPol + term;
        i := i + 1;
      }
      assert coefs[..i] == coefs;
      EvenSlopeIsDerivative(coefs);
      d := conic + zPol;
    }

    /** `deriv_2nd`: the four conic terms plus `(e-1) * e * A * h^(e-2)` for
        the power `e = 2(i+1)+2` of every coefficient. The two parts do not
        depend on each other; the polynomial is summed first here. */
    method Deriv2nd(sqrt: real -> real, h: real) returns (d2: real)
      requires IsSqrt(sqrt) && C().Finite? && Radicand(C().value, k, h) > 0.0
      ensures d2 == AsphereSecond(sqrt, C().value, k, EvenTerms(coefs), h)
    {
      var zPol := 0.0;
      var i := 0;
      while i < |coefs|
        invariant 0 <= i <= |coefs|
        invariant zPol == Eval(EvenSecondTerms(coefs[..i]), h)
      {
        var e: nat := 2 * (i + 1) + 2;
        var term := (e - 1) as real * e as real * coefs[i] * Pow(h, e - 2);
        EvenSecondStep(coefs, i, e, h, term);
        zPol := zPol + term;
        i := i + 1;
      }
      assert coefs[..i] == coefs;
      EvenSecondIsDerivative(coefs);
      var c := C().value;
      var rt := sqrt(Radicand(c, k, h));
      var K := k + 1.0;
      ConicSecondTerms(sqrt, c, k, K, h, rt);
      var conic := SecondTerms(c, K, h, rt);
      d2 := conic + zPol;
    }

    /** `local_curvature`: `deriv_2nd / (1 + deriv_1st^2)^(3/2)`. */
    method LocalCurvature(sqrt: real -> real, h: real) returns (lc: real)
      requires IsSqrt(sqrt) && C().Finite? && Radicand(C().value, k, h) > 0.0
      ensures lc == AsphereCurvature(sqrt, C().value, k, EvenTerms(coefs), h)
    {
      var d2 := Deriv2nd(sqrt, h);
      var d1 := Deriv1st(sqrt, h);
      lc := CurveCurvature(sqrt, d1, d2);
    }

    /** `local_radius`: the reciprocal of the local curvature. The curvature
        is a numpy float, so a zero curvature divides to `inf` rather than
        raising, and the `except ZeroDivisionError` never runs. */
    method LocalRadius(sqrt: real -> real, h: real) returns (lr: Extended)
      requires IsSqrt(sqrt) && C().Finite? && Radicand(C().value, k, h) > 0.0
      ensures lr == Infinity <==> AsphereCurvature(sqrt, C().value, k, EvenTerms(coefs), h) == 0.0
      ensures lr.Finite? ==> lr.value * AsphereCurvature(sqrt, C().value, k, EvenTerms(coefs), h) == 1.0
    {
      var lc := LocalCurvature(sqrt, h);
      if lc == 0.0 {
        lr := Infinity;
      } else {
        lr := Finite(1.0 / lc);
      }
    }
  }

  class OddAsphere {
    var r: Extended
    var k: real
    var coefs: seq<real>
    var innerD: real
    var outerD: real

    /** The same defaults as the even asphere. */
    constructor (r: Extended := Infinity, k: real := 0.0, coefs: Option<seq<real>> := None,
                 innerD: real := 0.0, outerD: real := 0.0)
      ensures Data() == OddData(r, k, if coefs.None? then DefaultCoefs() else coefs.value, innerD, outerD)
    {
      this.r := r;
      this.k := k;
      if coefs.None? {
        this.coefs := DefaultCoefs();
      } else {
        this.coefs := coefs.value;
      }
      this.innerD := innerD;
      this.outerD := outerD;
    }

    function Data(): SurfaceData
      reads this
    {
      OddData(r, k, coefs, innerD, outerD)
    }

    /** `c`, the vertex curvature: `1/r`, with `1/inf == 0` and infinity
        for the caught division by a zero radius; the same value as the
        sphere's `c`. */
    function C(): (c: Extended)
      reads this
      ensures c == SphereCurvature(r)
      ensures c.Finite? <==> r != Finite(0.0)
      ensures r.Finite? && r.value != 0.0 ==> c.value * r.value == 1.0
    {
      CurvaturesAgree(r);
      ConicCurvature(r)
    }

    /** `sag`: the conic sag plus `A * h^(i+3)` for every coefficient. */
    method Sag(sqrt: real -> real, h: real) returns (z: real)
      requires IsSqrt(sqrt) && C().Finite? && Radicand(C().value, k, h) >= 0.0
      ensures z == AsphereSag(sqrt, C().value, k, OddTerms(coefs), h)
    {
      var c := C().value;
      var zConic := ConicSag(sqrt, c, k, h);
      var zPol := 0.0;
      var i := 0;
      while i < |coefs|
        invariant 0 <= i <= |coefs|
        invariant zPol == Eval(OddTerms(coefs[..i]), h)
      {
        var e: nat := i + 3;
        var term := coefs[i] * Pow(h, e);
        OddSagStep(coefs, i, e, h, term);
        zPol := zPol + term;
        i := i + 1;
      }
      assert coefs[..i] == coefs;
      z := zConic + zPol;
    }

    /** `deriv_1st`: the two conic terms plus `(i+3) * A * h^(i+2)`. */
    method Deriv1st(sqrt: real -> real, h: real) returns (d: real)
      requires IsSqrt(sqrt) && C().Finite? && Radicand(C().value, k, h) > 0.0
      ensures d == AsphereSlope(sqrt, C().value, k, OddTerms(coefs), h)
    {
      var c := C().value;
      var conic := SourceConicSlope(sqrt, c, k, h);
      var zPol := 0.0;
      var i := 0;
      while i < |coefs|
        invariant 0 <= i <= |coefs|
        invariant zPol == Eval(OddSlopeTerms(coefs[..i]), h)
      {
        var e: nat := i + 3;
        var term := e as real * coefs[i] * Pow(h, e - 1);
        OddSlopeStep(coefs, i, e, h, term);
        zPol := zPol + term;
        i := i + 1;
      }
      assert coefs[..i] == coefs;
      OddSlopeIsDerivative(coefs);
      d := conic + zPol;
    }

    /** `deriv_2nd`: the four conic terms plus `(i+2) * (i+3) * A * h^(i+1)`,
        the polynomial summed first as in `EvenAsphere.Deriv2nd`. */
    method Deriv2nd(sqrt: real -> real, h: real) returns (d2: real)
      requires IsSqrt(sqrt) && C().Finite? && Radicand(C().value, k, h) > 0.0
      ensures d2 == AsphereSecond(sqrt, C().value, k, OddTerms(coefs), h)
    {
      var zPol := 0.0;
      var i := 0;
      while i < |coefs|
        invariant 0 <= i <= |coefs|
        invariant zPol == Eval(OddSecondTerms(coefs[..i]), h)
      {
        var e: nat := i + 3;
        var term := (e - 1) as real * e as real * coefs[i] * Pow(h, e - 2);
        OddSecondStep(coefs, i, e, h, term);
        zPol := zPol + term;
        i := i + 1;
      }
      assert coefs[..i] == coefs;
      OddSecondIsDerivative(coefs);
      var c := C().value;
      var rt := sqrt(Radicand(c, k, h));
      var K := k + 1.0;
      ConicSecondTerms(sqrt, c, k, K, h, rt);
      var conic := SecondTerms(c, K, h, rt);
      d2 := conic + zPol;
    }

    /** `local_curvature`: `deriv_2nd / (1 + deriv_1st^2)^(3/2)`. */
    method LocalCurvature(sqrt: real -> real, h: real) returns (lc: real)
      requires IsSqrt(sqrt) && C().Finite? && Radicand(C().value, k, h) > 0.0
      ensures lc == AsphereCurvature(sqrt, C().value, k, OddTerms(coefs), h)
    {
      var d2 := Deriv2nd(sqrt, h);
      var d1 := Deriv1st(sqrt, h);
      lc := CurveCurvature(sqrt, d1, d2);
    }

    /** `local_radius`: the reciprocal of the local curvature. The curvature
        is a numpy float, so a zero curvature divides to `inf` rather than
        raising, and the `except ZeroDivisionError` never runs. */
    method LocalRadius(sqrt: real -> real, h: real) returns (lr: Extended)
      requires IsSqrt(sqrt) && C().Finite? && Radicand(C().value, k, h) > 0.0
      ensures lr == Infinity <==> AsphereCurvature(sqrt, C().value, k, OddTerms(coefs), h) == 0.0
      ensures lr.Finite? ==> lr.value * AsphereCurvature(sqrt, C().value, k, OddTerms(coefs), h) == 1.0
    {
      var lc := LocalCurvature(sqrt, h);
      if lc == 0.0 {
        lr := Infinity;
      } else {
        lr := Finite(1.0 / lc);
      }
    }
  }

  /** A sphere with the default infinite radius is flat: curvature 0, sag 0
      and slope 0 at every height, and an infinite local radius. */
  lemma FlatSphereSurface(s: Sphere, sqrt: real -> real, h: real)
    requires IsSqrt(sqrt) && s.r == Infinity
    ensures s.C() == Finite(0.0) && SphereRadicand(0.0, h) == 1.0
    ensures s.Sag(sqrt, h) == 0.0 && s.Deriv1st(sqrt, h) == 0.0
    ensures s.LocalRadius(h) == Infinity
  {
    FlatSphere(sqrt, h);
  }

  /** The base radius that `Sphere.local_radius` answers at every height is
      the reciprocal of the curvature of the sphere's profile there, the
      quantity the aspheres' `local_radius` inverts. */
  lemma SphereLocalRadiusIsCurvatureRadius(s: Sphere, sqrt: real -> real, h: real)
    requires IsSqrt(sqrt) && s.r.Finite? && s.r.value != 0.0
    requires SphereRadicand(s.C().value, h) > 0.0
    ensures s.LocalRadius(h).Finite?
    ensures var c := s.C().value;
      s.LocalRadius(h).value * CurveCurvature(sqrt, ConicSlope(sqrt, c, 0.0, h), ConicSecond(sqrt, c, 0.0, h)) == 1.0
  {
    var c := s.C().value;
    assert Radicand(c, 0.0, h) == SphereRadicand(c, h);
    CircleCurvatureIsConstant(sqrt, c, h);
  }

  /** One step of each even-asphere loop: reading coefficient `i`, whose
      power is `e`, adds one term to each polynomial. */
  lemma EvenSagStep(coefs: seq<real>, i: nat, e: nat, h: real, term: real)
    requires i < |coefs| && e == 2 * (i + 1) + 2
    requires term == coefs[i] * Pow(h, e)
    ensures Eval(EvenTerms(coefs[..i + 1]), h) == Eval(EvenTerms(coefs[..i]), h) + term
  {
    TermsOfSnoc(coefs, EvenTerm, i, h);
  }

  lemma EvenSlopeStep(coefs: seq<real>, i: nat, e: nat, h: real, term: real)
    requires i < |coefs| && e == 2 * (i + 1) + 2
    requires term == e as real * coefs[i] * Pow(h, e - 1)
    ensures Eval(EvenSlopeTerms(coefs[..i + 1]), h)
            == Eval(EvenSlopeTerms(coefs[..i]), h) + term
  {
    TermsOfSnoc(coefs, EvenSlopeTerm, i, h);
  }

  lemma EvenSecondStep(coefs: seq<real>, i: nat, e: nat, h: real, term: real)
    requires i < |coefs| && e == 2 * (i + 1) + 2
    requires term == (e - 1) as real * e as real * coefs[i] * Pow(h, e - 2)
    ensures Eval(EvenSecondTerms(coefs[..i + 1]), h)
            == Eval(EvenSecondTerms(coefs[..i]), h) + term
  {
    TermsOfSnoc(coefs, EvenSecondTerm, i, h);
    Reassociate((e - 1) as real, e as real, coefs[i], Pow(h, e - 2));
  }

  /** One step of each odd-asphere loop: reading coefficient `i`, whose
      power is `e`, adds one term to each polynomial. */
  lemma OddSagStep(coefs: seq<real>, i: nat, e: nat, h: real, term: real)
    requires i < |coefs| && e == i + 3
    requires term == coefs[i] * Pow(h, e)
    ensures Eval(OddTerms(coefs[..i + 1]), h) == Eval(OddTerms(coefs[..i]), h) + term
  {
    TermsOfSnoc(coefs, OddTerm, i, h);
  }

  lemma OddSlopeStep(coefs: seq<real>, i: nat, e: nat, h: real, term: real)
    requires i < |coefs| && e == i + 3
    requires term == e as real * coefs[i] * Pow(h, e - 1)
    ensures Eval(OddSlopeTerms(coefs[..i + 1]), h)
            == Eval(OddSlopeTerms(coefs[..i]), h) + term
  {
    TermsOfSnoc(coefs, OddSlopeTerm, i, h);
  }

  lemma OddSecondStep(coefs: seq<real>, i: nat, e: nat, h: real, term: real)
    requires i < |coefs| && e == i + 3
    requires term == (e - 1) as real * e as real * coefs[i] * Pow(h, e - 2)
    ensures Eval(OddSecondTerms(coefs[..i + 1]), h)
            == Eval(OddSecondTerms(coefs[..i]), h) + term
  {
    TermsOfSnoc(coefs, OddSecondTerm, i, h);
    Reassociate((e - 1) as real, e as real, coefs[i], Pow(h, e - 2));
  }

  /** The two conic terms `z1 + z2` of the aspheres' `deriv_1st`, as the
      source writes them, with `rt` the square root of the radicand. Their
      sum is the conic slope `c*h / rt`. */
  function SourceConicSlope(sqrt: real -> real, c: real, k: real, h: real): (d: real)
    requires IsSqrt(sqrt) && Radicand(c, k, h) > 0.0
    ensures d == ConicSlope(sqrt, c, k, h)
  {
    var rt := sqrt(Radicand(c, k, h));
    var z1 := 2.0 * c * h / (rt + 1.0);
    var z2 := c * c * c * (h * h * h) * (k + 1.0) / (rt * ((rt + 1.0) * (rt + 1.0)));
    ConicSlopeTerms(sqrt, c, k, h, rt, z1, z2);
    z1 + z2
  }

  lemma ConicSlopeTerms(sqrt: real -> real, c: real, k: real, h: real, rt: real, z1: real, z2: real)
    requires IsSqrt(sqrt) && Radicand(c, k, h) > 0.0 && rt == sqrt(Radicand(c, k, h))
    requires z1 == 2.0 * c * h / (rt + 1.0)
    requires z2 == c * c * c * (h * h * h) * (k + 1.0) / (rt * ((rt + 1.0) * (rt + 1.0)))
    ensures z1 + z2 == ConicSlope(sqrt, c, k, h)
  {
    RadicandRoot(sqrt, c, k, h, rt);
    SlopeTerms(c, k, h, rt);
  }

  /** The four conic terms `z1 + z2 + z3 + z4` of the aspheres'
      `deriv_2nd` (`SecondTerms`, with `K` for `k + 1`) add up to the conic
      second derivative `c / rt^3`. */
  lemma ConicSecondTerms(sqrt: real -> real, c: real, k: real, K: real, h: real, rt: real)
    requires IsSqrt(sqrt) && Radicand(c, k, h) > 0.0 && rt == sqrt(Radicand(c, k, h))
    requires K == k + 1.0
    ensures 0.0 < rt && rt * rt == 1.0 - K * c * c * h * h
    ensures SecondTerms(c, K, h, rt) == ConicSecond(sqrt, c, k, h)
  {
    RadicandRoot(sqrt, c, k, h, rt);
    SecondTermsClosedForm(c, K, h, rt);
    ConicSecondValue(sqrt, c, k, h, rt);
  }

  lemma ConicSecondValue(sqrt: real -> real, c: real, k: real, h: real, rt: real)
    requires IsSqrt(sqrt) && Radicand(c, k, h) > 0.0 && rt == sqrt(Radicand(c, k, h))
    ensures ConicSecond(sqrt, c, k, h) == c / (rt * rt * rt)
  {
  }

  /** The square root taken by the derivative methods is positive and
      squares back to the radicand, written with `k + 1` as the source
      writes it. */
  lemma RadicandRoot(sqrt: real -> real, c: real, k: real, h: real, rt: real)
    requires IsSqrt(sqrt) && Radicand(c, k, h) > 0.0 && rt == sqrt(Radicand(c, k, h))
    ensures 0.0 < rt && rt * rt == 1.0 - (k + 1.0) * c * c * h * h
  {
    assert rt * rt == Radicand(c, k, h);
  }

  lemma Reassociate(x: real, y: real, a: real, w: real)
    ensures (x * (y * a)) * w == x * y * a * w
  {
  }
}
