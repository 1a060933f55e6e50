/** The singlet model of the design notebook: spherical surfaces given by a
    signed radius (0 for flat) and two diameters, and a singlet of two such
    surfaces with its mechanical diameter, its thick-lens power for glass of
    index 1.5, and its focal length. */
module Notebook {
  import opened Numbers
  import opened Profile

  /** A surface: radius, clear diameter and edge diameter. */
  datatype NbSurface = NbSurface(radius: real, clearDiameter: real, edgeDiameter: real)

  /** `Surface(r, cd, ed)`: the edge diameter is the clear diameter unless
      one is given. */
  function MakeSurface(r: real, cd: real, ed: Option<real>): (s: NbSurface)
    ensures s.radius == r && s.clearDiameter == cd
    ensures ed.None? ==> s.edgeDiameter == cd
    ensures ed.Some? ==> s.edgeDiameter == ed.value
  {
    NbSurface(r, cd, if ed.None? then cd else ed.value)
  }

  /** `sag(h) = r * (1 - |sqrt(r^2 - h^2) / r|)`, defined for a curved
      surface and a height within its radius. The sag lies between the
      vertex and the centre of curvature, on the side the radius points. */
  function Sag(sqrt: real -> real, s: NbSurface, h: real): (z: real)
    requires IsSqrt(sqrt) && s.radius != 0.0 && h * h <= s.radius * s.radius
    ensures s.radius > 0.0 ==> 0.0 <= z <= s.radius
    ensures s.radius < 0.0 ==> s.radius <= z <= 0.0
  {
    SagBounds(sqrt, s.radius, h);
    SagOfRadius(sqrt, s.radius, h)
  }

  lemma SagBounds(sqrt: real -> real, r: real, h: real)
    requires IsSqrt(sqrt) && r != 0.0 && h * h <= r * r
    ensures r > 0.0 ==> 0.0 <= SagOfRadius(sqrt, r, h) <= r
    ensures r < 0.0 ==> r <= SagOfRadius(sqrt, r, h) <= 0.0
  {
    var q := RootOverRadius(sqrt, r, h);
    var z := SagValue(sqrt, r, h, q);
    BetweenVertexAndCentre(r, h, q, 1.0 / r, z);
  }

  /** `r * (1 - q)` with `0 <= q <= 1` lies between 0 and `r`. */
  lemma BetweenVertexAndCentre(r: real, h: real, q: real, c: real, z: real)
    requires 0.0 <= q && q * q == 1.0 - c * c * h * h && z == r * (1.0 - q)
    ensures r > 0.0 ==> 0.0 <= z <= r
    ensures r < 0.0 ==> r <= z <= 0.0
  {
    assert c * c * h * h == (c * h) * (c * h);
    assert (q - 1.0) * (q + 1.0) <= 0.0;
    assert q <= 1.0;
    assert r - z == r * q;
    if r < 0.0 {
      assert z == -((-r) * (1.0 - q));
      assert r * q <= 0.0;
    }
  }

  /** `sag` as the notebook writes it, over every radius, with `nan` as
      `None`: a zero radius, which `curvature` treats as a flat surface,
      divides `adj` by 0 and gives `nan` at every height, even at the
      vertex. */
  function SagAsWritten(sqrt: real -> real, s: NbSurface, h: real): (z: Option<real>)
    requires IsSqrt(sqrt) && (s.radius != 0.0 ==> h * h <= s.radius * s.radius)
    ensures z.None? <==> s.radius == 0.0
    ensures z.Some? ==> z.value == Sag(sqrt, s, h)
  {
    if s.radius == 0.0 then None else Some(Sag(sqrt, s, h))
  }

  /** A flat surface, by the notebook's own convention, has no sag even at
      its vertex, where the formula as written gives `nan`. */
  lemma FlatSagIsNan(sqrt: real -> real, s: NbSurface)
    requires IsSqrt(sqrt) && s.radius == 0.0
    ensures Curvature(s) == 0.0
    ensures SagAsWritten(sqrt, s, 0.0).None?
  {
  }

  /** The sag with the flat convention of `curvature`: 0 for radius 0, and
      the notebook formula otherwise. */
  function FlatAwareSag(sqrt: real -> real, s: NbSurface, h: real): (z: real)
    requires IsSqrt(sqrt) && (s.radius != 0.0 ==> h * h <= s.radius * s.radius)
    ensures s.radius == 0.0 ==> z == 0.0
    ensures s.radius != 0.0 ==> z == Sag(sqrt, s, h)
  {
    if s.radius == 0.0 then 0.0 else Sag(sqrt, s, h)
  }

  /** The corrected sag is, for every radius including the flat 0, the
      drawing program's sphere sag for the surface's `curvature`. */
  lemma FlatAwareSagMatchesCurvature(sqrt: real -> real, s: NbSurface, h: real)
    requires IsSqrt(sqrt) && (s.radius != 0.0 ==> h * h <= s.radius * s.radius)
    ensures SphereRadicand(Curvature(s), h) >= 0.0
    ensures FlatAwareSag(sqrt, s, h) == SphereSag(sqrt, Curvature(s), h)
  {
    if s.radius == 0.0 {
      FlatSphere(sqrt, h);
    } else {
      SagMatchesSphere(sqrt, s, h);
    }
  }

  /** The sag formula in terms of the radius alone. */
  function SagOfRadius(sqrt: real -> real, r: real, h: real): real
    requires IsSqrt(sqrt) && r != 0.0 && h * h <= r * r
  {
    r * (1.0 - Abs(sqrt(r * r - h * h) / r))
  }

  /** The square root in `Sag`, divided by the radius, in absolute value. */
  lemma RootOverRadius(sqrt: real -> real, r: real, h: real) returns (q: real)
    requires IsSqrt(sqrt) && r != 0.0 && h * h <= r * r
    ensures q == Abs(sqrt(r * r - h * h) / r)
    ensures 0.0 <= q && q * q == 1.0 - (1.0 / r) * (1.0 / r) * h * h
    ensures q * Abs(r) == sqrt(r * r - h * h)
  {
    var a := sqrt(r * r - h * h);
    var c := 1.0 / r;
    assert c * r == 1.0;
    q := Abs(a / r);
    assert a / r * r == a;
    if r > 0.0 {
      assert q * r == a;
    } else {
      assert q == -(a / r);
      assert q * -r == a;
    }
    assert q * q * (r * r) == a * a;
    QuotientSquare(q, r, h, c);
  }

  lemma QuotientSquare(q: real, r: real, h: real, c: real)
    requires r != 0.0 && c * r == 1.0 && q * q * (r * r) == r * r - h * h
    ensures q * q == 1.0 - c * c * h * h
  {
    assert (q * q - (1.0 - c * c * h * h)) * (r * r) == 0.0 by {
      assert c * c * h * h * (r * r) == (c * r) * (c * r) * h * h;
    }
    assert r * r != 0.0;
  }

  /** The sag vanishes at the vertex. */
  lemma SagAtVertex(sqrt: real -> real, s: NbSurface)
    requires IsSqrt(sqrt) && s.radius != 0.0
    ensures Sag(sqrt, s, 0.0) == 0.0
  {
    var q := RootOverRadius(sqrt, s.radius, 0.0);
    RootUnique(q, 1.0);
  }

  /** The sag depends on `h` only through `h^2`. */
  lemma SagSymmetric(sqrt: real -> real, s: NbSurface, h: real)
    requires IsSqrt(sqrt) && s.radius != 0.0 && h * h <= s.radius * s.radius
    ensures Sag(sqrt, s, -h) == Sag(sqrt, s, h)
  {
    assert (-h) * (-h) == h * h;
  }

  /** The point `(h, sag(h))` lies on the circle of radius `r` whose centre
      is on the axis at distance `r` from the vertex. */
  lemma SagOnCircle(sqrt: real -> real, s: NbSurface, h: real)
    requires IsSqrt(sqrt) && s.radius != 0.0 && h * h <= s.radius * s.radius
    ensures var z := Sag(sqrt, s, h);
      (s.radius - z) * (s.radius - z) + h * h == s.radius * s.radius
  {
    var r := s.radius;
    var q := RootOverRadius(sqrt, r, h);
    var z := SagValue(sqrt, r, h, q);
    var a := sqrt(r * r - h * h);
    assert a * a == r * r - h * h;
    CircleAlgebra(r, h, q, a, z);
  }

  lemma CircleAlgebra(r: real, h: real, q: real, a: real, z: real)
    requires z == r * (1.0 - q) && q * Abs(r) == a && a * a == r * r - h * h
    ensures (r - z) * (r - z) + h * h == r * r
  {
    assert r - z == r * q;
    assert (r * q) * (r * q) == (q * Abs(r)) * (q * Abs(r));
  }

  /** The notebook sag is the sag of the drawing program's sphere with
      curvature `1/r`. */
  lemma SagMatchesSphere(sqrt: real -> real, s: NbSurface, h: real)
    requires IsSqrt(sqrt) && s.radius != 0.0 && h * h <= s.radius * s.radius
    ensures SphereRadicand(1.0 / s.radius, h) >= 0.0
    ensures Sag(sqrt, s, h) == SphereSag(sqrt, 1.0 / s.radius, h)
  {
    var r := s.radius;
    var c := 1.0 / r;
    var q := RootOverRadius(sqrt, r, h);
    assert c * r == 1.0;
    var rad := SphereRadicand(c, h);
    assert rad == 1.0 - c * c * h * h;
    SqrtOfSquare(sqrt, rad, q);
    var z1 := SagValue(sqrt, r, h, q);
    var z2 := SphereSagValue(sqrt, c, h, q);
    SagLink(r, c, h, q, z1, z2);
  }

  lemma SagValue(sqrt: real -> real, r: real, h: real, q: real) returns (z: real)
    requires IsSqrt(sqrt) && r != 0.0 && h * h <= r * r
    requires q == Abs(sqrt(r * r - h * h) / r)
    ensures z == SagOfRadius(sqrt, r, h) && z == r * (1.0 - q)
  {
    z := SagOfRadius(sqrt, r, h);
  }

  lemma SphereSagValue(sqrt: real -> real, c: real, h: real, q: real) returns (z: real)
    requires IsSqrt(sqrt) && SphereRadicand(c, h) >= 0.0 && sqrt(SphereRadicand(c, h)) == q
    ensures z == SphereSag(sqrt, c, h) && z == c * h * h / (1.0 + q)
  {
    z := SphereSag(sqrt, c, h);
  }

  lemma SagLink(r: real, c: real, h: real, q: real, z1: real, z2: real)
    requires c * r == 1.0 && 0.0 <= q && q * q == 1.0 - c * c * h * h
    requires z1 == r * (1.0 - q) && z2 == c * h * h / (1.0 + q)
    ensures z1 == z2
  {
    SagAlgebra(r, c, h, q);
  }

  lemma SagAlgebra(r: real, c: real, h: real, q: real)
    requires c * r == 1.0 && 0.0 <= q && q * q == 1.0 - c * c * h * h
    ensures r * (1.0 - q) == c * h * h / (1.0 + q)
  {
    assert r * (1.0 - q) * (1.0 + q) == r * (c * c * h * h);
    assert r * (c * c * h * h) == (c * r) * c * h * h;
  }

  /** `curvature`: 0 for a zero radius, otherwise `1/r`. */
  function Curvature(s: NbSurface): (cv: real)
    ensures s.radius == 0.0 ==> cv == 0.0
    ensures s.radius != 0.0 ==> cv != 0.0 && cv * s.radius == 1.0
  {
    if s.radius == 0.0 then 0.0 else 1.0 / s.radius
  }

  /** The notebook curvature agrees with the drawing program's sphere
      curvature wherever that one is finite. */
  lemma CurvatureMatchesSphere(s: NbSurface)
    requires s.radius != 0.0
    ensures SphereCurvature(Finite(s.radius)) == Finite(Curvature(s))
  {
  }

  /** Turning a surface around negates its curvature. */
  lemma CurvatureFlipped(s: NbSurface)
    ensures Curvature(s.(radius := -s.radius)) == -Curvature(s)
  {
    if s.radius != 0.0 {
      var f := s.(radius := -s.radius);
      assert Curvature(f) * s.radius == -1.0;
      assert -Curvature(s) * s.radius == -1.0;
      CancelRadius(Curvature(f), -Curvature(s), s.radius);
    }
  }

  lemma CancelRadius(x: real, y: real, r: real)
    requires r != 0.0 && x * r == y * r
    ensures x == y
  {
    assert (x - y) * r == 0.0;
  }

  /** A singlet of two surfaces; the material is always `N-BK7`. */
  datatype Singlet = Singlet(left: NbSurface, right: NbSurface, material: string, thickness: real)

  /** `Singlet(r1, cd1, ed1, r2, cd2, ed2, m, t)`: the argument `m` is not
      used. */
  function MakeSinglet(r1: real, cd1: real, ed1: Option<real>, r2: real, cd2: real, ed2: Option<real>,
                       m: string, t: real): (s: Singlet)
    ensures s.material == "N-BK7" && s.thickness == t
    ensures s.left == MakeSurface(r1, cd1, ed1) && s.right == MakeSurface(r2, cd2, ed2)
  {
    Singlet(MakeSurface(r1, cd1, ed1), MakeSurface(r2, cd2, ed2), "N-BK7", t)
  }

  /** `mech_diameter`: the larger edge diameter. */
  function MechDiameter(s: Singlet): (d: real)
    ensures d >= s.left.edgeDiameter && d >= s.right.edgeDiameter
    ensures d == s.left.edgeDiameter || d == s.right.edgeDiameter
  {
    Max(s.left.edgeDiameter, s.right.edgeDiameter)
  }

  /** The refractive index the notebook assumes. */
  const Index: real := 1.5

  /** `power`: the thick-lens power
      `(n-1) * (cv1 - cv2 + t*(n-1)*cv1*cv2/n)` with `n = 1.5`. */
  function Power(s: Singlet): (p: real)
    ensures s.left.radius == 0.0 ==> p == -(Index - 1.0) * Curvature(s.right)
    ensures s.right.radius == 0.0 ==> p == (Index - 1.0) * Curvature(s.left)
  {
    var cv1 := Curvature(s.left);
    var cv2 := Curvature(s.right);
    (Index - 1.0) * (cv1 - cv2 + s.thickness * (Index - 1.0) * cv1 * cv2 / Index)
  }

  /** Two flat surfaces have no power, and a lens of zero thickness has
      the thin-lens power `(n-1) * (cv1 - cv2)`. */
  lemma PowerSpecialCases(s: Singlet)
    ensures Curvature(s.left) == 0.0 && Curvature(s.right) == 0.0 ==> Power(s) == 0.0
    ensures s.thickness == 0.0 ==> Power(s) == 0.5 * (Curvature(s.left) - Curvature(s.right))
  {
  }

  /** The thick-lens power in terms of the radii, for curved surfaces:
      `(n-1) * (1/R1 - 1/R2 + (n-1)*t / (n*R1*R2))`. */
  lemma PowerFromRadii(s: Singlet)
    requires s.left.radius != 0.0 && s.right.radius != 0.0
    ensures Power(s) == (Index - 1.0) * (1.0 / s.left.radius - 1.0 / s.right.radius
      + (Index - 1.0) * s.thickness / (Index * s.left.radius * s.right.radius))
  {
    var r1, r2 := s.left.radius, s.right.radius;
    assert (1.0 / r1) * (1.0 / r2) == 1.0 / (r1 * r2);
    assert s.thickness * (Index - 1.0) * (1.0 / r1) * (1.0 / r2) / Index
        == (Index - 1.0) * s.thickness / (Index * r1 * r2);
  }

  /** The singlet turned around: the right surface, negated, comes first. */
  function Reversed(s: Singlet): Singlet
  {
    s.(left := s.right.(radius := -s.right.radius), right := s.left.(radius := -s.left.radius))
  }

  /** Turning the singlet around leaves its power unchanged. */
  lemma PowerReversed(s: Singlet)
    ensures Power(Reversed(s)) == Power(s)
  {
    CurvatureFlipped(s.left);
    CurvatureFlipped(s.right);
    var cv1, cv2 := Curvature(s.left), Curvature(s.right);
    assert Curvature(Reversed(s).left) == -cv2;
    assert Curvature(Reversed(s).right) == -cv1;
    assert (-cv2) * (-cv1) == cv1 * cv2;
  }

  /** `focal_length`: `1 / power`, which raises `ZeroDivisionError` when
      the power is zero. */
  function FocalLength(s: Singlet): (f: Option<real>)
    ensures f.None? <==> Power(s) == 0.0
    ensures f.Some? ==> f.value * Power(s) == 1.0
  {
    if Power(s) == 0.0 then None else Some(1.0 / Power(s))
  }
}
