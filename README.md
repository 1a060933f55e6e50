# Lens drawing: surface profiles, lens records and the singlet notebook

This project is a Dafny model of the computational core of the lens drawing program. That core has three parts.

- **Surface profiles** (`lens-drawing/surface.py`). Three surface classes share one structure:
  - a sphere (`SPH`), an even asphere (`ASP`) and an odd asphere (`ODD`);
  - each has a vertex curvature `c` computed from its radius, where the radius may be `inf` for a flat surface;
  - each has a sag `z(h)`, with first and second derivatives.
  The aspheres add a polynomial in the height `h` to a conic. Even aspheres use the powers 4, 6, 8, …; odd aspheres use 3, 4, 5, …. That polynomial is summed coefficient by coefficient in loops.
- **The lens container** (`lens-drawing/lens.py`). It holds two surface objects, a thickness, a material, a name and a description. `to_dict` writes it to a nested record. `from_dict` reads a record back, overwriting fields and creating fresh surface objects.
- **The singlet notebook** (`notebooks/lens.py`). A spherical surface has a radius and two diameters. A singlet has two such surfaces, and the notebook computes its mechanical diameter, its thick-lens power for index 1.5, and its focal length.

The modules follow that structure:

| module | file | contents |
|---|---|---|
| `Numbers` | `numbers.dfy` | the radius type `Extended` (a finite real or `inf`), `Option`, the square root as a parameter, powers |
| `Polynomial` | `polynomial.dfy` | polynomials as sequences of monomials, their value, the power-rule derivative, and a proof that it is the derivative |
| `Profile` | `profile.dfy` | vertex curvature, sphere and conic formulas in closed form, the asphere exponent mappings, and their properties |
| `Surface` | `surface.dfy` | the classes `Sphere`, `EvenAsphere` and `OddAsphere`, whose fields the loader overwrites; the polynomial loops are methods proved against `Profile` |
| `Lenses` | `lens.dfy` | the record datatypes, the pure `to_dict`/`from_dict` specifications, and the class `Lens` with `ToDict` and `FromDict` |
| `Notebook` | `notebook.dfy` | the notebook's `Surface` and `Singlet` as datatypes with their pure functions |

`np.sqrt` is a parameter `sqrt: real -> real` of every formula that takes a root. The only thing assumed about it is `IsSqrt(sqrt)`: for `x >= 0`, `sqrt(x) >= 0` and `sqrt(x) * sqrt(x) == x`. Python's `float()` applied to a text is also a parameter, `floatOfText: string -> Option<Extended>`, where `None` stands for `ValueError`.

The derivative formulas in the source are written out term by term. They are checked in two ways:
- the polynomial parts are the power-rule derivatives of the sag polynomial, and `Polynomial.PowerRuleIsDerivative` shows that the power rule gives the derivative;
- the conic parts equal closed forms, and those closed forms satisfy the once- and twice-differentiated conic equation.

## Model

| member | source | states |
|---|---|---|
| Profile.SphereCurvature | lens-drawing/surface.py:55-66 | `Sphere.c` is 0 for an infinite radius and infinity for a zero radius; otherwise it is a finite non-zero `c` with `c * r == 1` |
| Profile.ConicCurvature | lens-drawing/surface.py:104-110 | `EvenAsphere.c`, and alike `OddAsphere.c` at lines 182-188, is 0 for an infinite radius, infinity for a zero radius (the caught `ZeroDivisionError`), and otherwise a finite `c` with `c * r == 1` |
| Profile.CurvaturesAgree | lens-drawing/surface.py:104-110 | the aspheres' `c` (with `1/inf == 0` and a caught `ZeroDivisionError` giving `inf`) equals the sphere's `c` for every radius, and is finite exactly when the radius is not 0 |
| Profile.SphereSagOnCircle | lens-drawing/surface.py:68-70 | the sphere sag is 0 when `c == 0`, and `(h, sag(h))` lies on the circle `c*(h^2 + z^2) == 2*z` through the vertex |
| Profile.SphereSlopeClosedForm | lens-drawing/surface.py:72-79 | the two terms of `Sphere.deriv_1st` sum to `c*h / sqrt(1 - c^2 h^2)` and satisfy the differentiated circle equation `z' * (1 - c*z) == c*h` |
| Profile.SphereSagAtEdge | lens-drawing/surface.py:68-70 | at the edge `h^2 == r^2` the square root vanishes and the sag equals the radius |
| Profile.SphereSagSymmetric | lens-drawing/surface.py:68-70 | the sphere sag depends on `h` only through `h^2`: `sag(-h) == sag(h)` and `sag(0) == 0` |
| Profile.FlatSphere | lens-drawing/surface.py:68-79 | with `c == 0` the radicand is 1, and the sag and first derivative are 0 at every height |
| Profile.ConicSagOnConic | lens-drawing/surface.py:116 | the conic sag is 0 when flat, and the point lies on the conic `(1+k)*c*z^2 - 2*z + c*h^2 == 0` |
| Profile.ConicSlopeImplicit | lens-drawing/surface.py:127-130 | the conic slope is 0 when flat and satisfies `z' * (1 - (1+k)*c*z) == c*h` |
| Profile.ConicSecondImplicit | lens-drawing/surface.py:141-146 | the conic second derivative is 0 when flat and satisfies `z'' * (1 - (1+k)*c*z) - (1+k)*c*z'^2 == c` |
| Profile.SlopeTerms | lens-drawing/surface.py:129-130 | the terms `z1 + z2` of the aspheres' `deriv_1st` equal `c*h / rt` |
| Profile.SecondTermsClosedForm | lens-drawing/surface.py:143-146 | the terms `z1 + z2 + z3 + z4` of the aspheres' `deriv_2nd` equal `c / rt^3` |
| Profile.EvenTermsAt | lens-drawing/surface.py:118-120 | even-asphere coefficient `i` is the term `A * h^(2i+4)`, one term per coefficient |
| Profile.OddTermsAt | lens-drawing/surface.py:193-195 | odd-asphere coefficient `i` is the term `A * h^(i+3)`, one term per coefficient |
| Profile.EvenSlopeIsDerivative | lens-drawing/surface.py:132-134 | the terms `(2i+4) * A * h^(2i+3)` form the power-rule derivative of the even sag polynomial |
| Profile.EvenSecondIsDerivative | lens-drawing/surface.py:148-150 | the terms `(2i+3)(2i+4) * A * h^(2i+2)` form its second derivative |
| Profile.OddSlopeIsDerivative | lens-drawing/surface.py:207-209 | the terms `(i+3) * A * h^(i+2)` form the derivative of the odd sag polynomial |
| Profile.OddSecondIsDerivative | lens-drawing/surface.py:223-225 | the terms `(i+2)(i+3) * A * h^(i+1)` form its second derivative |
| Profile.EvenPolynomialSymmetric | lens-drawing/surface.py:118-120 | the even polynomial takes the same value at `-h` and `h` |
| Profile.DerivativesVanishAtVertex | lens-drawing/surface.py:132-134 | both derivative polynomials of either asphere are 0 at `h == 0` |
| Profile.DefaultCoefs | lens-drawing/surface.py:99-100 | the default coefficients are nine zeros |
| Profile.ZeroPolynomial | lens-drawing/surface.py:118-120 | with all coefficients zero, both polynomials and their two derivatives are 0 at every height |
| Profile.OddSagExample | lens-drawing/surface.py:193-195 | the single odd coefficient `1e-4` contributes `0.0125` at `h == 5` |
| Profile.EvenSagSymmetric | lens-drawing/surface.py:115-122 | an even asphere's sag is an even function of `h` and is 0 on the axis |
| Profile.FlatDefaultAsphere | lens-drawing/surface.py:92-102 | a flat asphere with zero coefficients, as built by default, has sag, slope, second derivative and local curvature 0 everywhere, for both exponent mappings |
| Profile.ConicWithZeroKIsSphere | lens-drawing/surface.py:116 | with `k == 0` the conic radicand, sag and slope are the sphere's |
| Profile.EvenMatchesSphere | lens-drawing/surface.py:115-122 | an even asphere with `k == 0` and zero coefficients has the sag of the sphere with the same curvature |
| Profile.VertexCurvature | lens-drawing/surface.py:157-158 | on the axis the slope of either asphere is 0 and its local curvature is `c`, whatever `k` and the coefficients are |
| Profile.CircleCurvatureIsConstant | lens-drawing/surface.py:157-158 | the conic with `k == 0` has local curvature `c` at every height where it is defined |
| Polynomial.EvalDifference | lens-drawing/surface.py:118-120 | for every polynomial, `p(x) - p(y) == (x - y) * q(x, y)`, where the quotient `q` is again a polynomial |
| Polynomial.ChordSumDiagonal | lens-drawing/surface.py:132-134 | that quotient on the diagonal, `q(x, x)`, is the power-rule derivative evaluated at `x` |
| Polynomial.PowerRuleIsDerivative | lens-drawing/surface.py:132-134 | the power-rule derivative is the derivative in Carathéodory's sense: the difference quotient is a polynomial whose diagonal value is `Derivative(p)(x)` |
| Surface.Sphere.constructor | lens-drawing/surface.py:49-53 | a new sphere holds the given radius (default `inf`) and diameters (default 0) |
| Surface.EvenAsphere.constructor | lens-drawing/surface.py:92-102 | a new even asphere holds the given radius, `k` and diameters, and the given coefficients or else nine zeros |
| Surface.OddAsphere.constructor | lens-drawing/surface.py:170-180 | the same defaults for the odd asphere |
| Surface.Sphere.C | lens-drawing/surface.py:55-66 | the sphere's `c` is 0 for radius `inf`, infinity for radius 0, and otherwise a finite non-zero `c` with `c * r == 1` |
| Surface.Sphere.LocalRadius | lens-drawing/surface.py:87-88 | the local radius is `inf` exactly when `c == 0`, 0 when `c` is infinite (radius 0), and otherwise it times `c` is 1; in every case it does not depend on the height |
| Surface.EvenAsphere.C | lens-drawing/surface.py:104-110 | the even asphere's `c` equals the sphere's `c` for the same radius; it is finite exactly when the radius is not 0, and then `c * r == 1` |
| Surface.OddAsphere.C | lens-drawing/surface.py:182-188 | the same for the odd asphere's `c` |
| Surface.FlatSphereSurface | lens-drawing/surface.py:55-88 | a sphere with radius `inf` has `c == 0`, sag 0 and first derivative 0 at every height, and local radius `inf` |
| Surface.SphereLocalRadiusIsCurvatureRadius | lens-drawing/surface.py:87-88 | the base radius that `local_radius` returns at every height is the reciprocal of the curvature of the sphere's profile there |
| Surface.EvenAsphere.Sag | lens-drawing/surface.py:115-122 | the loop returns the conic sag plus the value of the even sag polynomial of the coefficients |
| Surface.EvenAsphere.Deriv1st | lens-drawing/surface.py:124-136 | the result is the conic slope plus the derivative of the sag polynomial |
| Surface.EvenAsphere.Deriv2nd | lens-drawing/surface.py:138-152 | the result is the conic second derivative plus the second derivative of the sag polynomial |
| Surface.EvenAsphere.LocalCurvature | lens-drawing/surface.py:157-158 | the result is `z'' / (1 + z'^2)^(3/2)` of the profile whose derivatives the two methods compute |
| Surface.EvenAsphere.LocalRadius | lens-drawing/surface.py:160-166 | the result is `inf` exactly when the local curvature is 0 (numpy float division); otherwise it is finite and times the local curvature is 1 |
| Surface.OddAsphere.Sag | lens-drawing/surface.py:190-197 | the loop returns the conic sag plus the value of the odd sag polynomial |
| Surface.OddAsphere.Deriv1st | lens-drawing/surface.py:199-211 | the conic slope plus the derivative of the odd polynomial |
| Surface.OddAsphere.Deriv2nd | lens-drawing/surface.py:213-227 | the conic second derivative plus the second derivative of the odd polynomial |
| Surface.OddAsphere.LocalCurvature | lens-drawing/surface.py:232-233 | `z'' / (1 + z'^2)^(3/2)` of the odd profile |
| Surface.OddAsphere.LocalRadius | lens-drawing/surface.py:235-241 | the result is `inf` exactly when the odd profile's local curvature is 0; otherwise it is finite and times that curvature is 1 |
| Surface.SourceConicSlope | lens-drawing/surface.py:127-130 | the two conic terms of `deriv_1st`, as written, equal the closed-form conic slope |
| Surface.ConicSecondTerms | lens-drawing/surface.py:141-146 | the four conic terms of `deriv_2nd`, as written, equal the closed-form conic second derivative |
| Lenses.RealOf | lens-drawing/lens.py:94 | `float()` succeeds exactly when it yields a finite number, and then its value is that number; a finite number converts to itself |
| Lenses.RealsOf | lens-drawing/lens.py:111 | the array conversion succeeds exactly when every field converts, and then has one entry per field, entry `i` being the conversion of field `i` |
| Lenses.RealsOfEntries | lens-drawing/lens.py:111 | entry `i` of a successful array conversion is `float()` of field `i` |
| Lenses.ParseRadius | lens-drawing/lens.py:100-103 | the radius is `float(radius)` when that succeeds, and `inf` when it raises `ValueError` |
| Lenses.RadiusFallback | lens-drawing/lens.py:100-103 | the parsed radius is `inf` exactly for the number `inf`, or for a text the parser rejects or reads as `inf` |
| Lenses.NumberFields | lens-drawing/lens.py:69-72 | the coefficients are written as a list of numbers, with the same values in the same order |
| Lenses.LensToRecord | lens-drawing/lens.py:55-86 | `to_dict` copies name, material, thickness and description, and each surface entry is that surface's own entry (type, diameters, radius, and `k` and `coefs` exactly for a surface that is not a sphere) |
| Lenses.SurfaceToRecord | lens-drawing/lens.py:62-72 | a surface entry always has `type`, `inner_d`, `outer_d` and `radius`; it has `k` and `coefs` exactly when the type is not `SPH`, and `coefs` lists every coefficient in order |
| Lenses.RealsOfNumbers | lens-drawing/lens.py:111 | coefficients written as numbers convert back to themselves |
| Lenses.BuildSurface | lens-drawing/lens.py:98-111 | the fresh object is a sphere exactly for type `SPH`, otherwise an even asphere, always with the parsed radius and zero diameters; an asphere reads without error exactly when `k` and `coefs` are present and convert, and then holds them; a `KeyError` means one of them is missing |
| Lenses.LoadSurface | lens-drawing/lens.py:98-114 | a surface reads without error exactly when its type-dependent part and both diameters convert, and then is that part with both diameters set; on an error it is the part read so far: the type-dependent part alone, or with the inner diameter set |
| Lenses.LoadLens | lens-drawing/lens.py:88-133 | name and material are always overwritten; reading succeeds exactly when the thickness and both surfaces convert, and then the new state is the record's, whatever the old state was |
| Lenses.LoadLensSteps | lens-drawing/lens.py:92-133 | reading stops at the first failed conversion: after the thickness, after the left surface, or after the right surface, with the fields assigned up to that point |
| Lenses.LoadedKind | lens-drawing/lens.py:98-111 | reading builds a sphere exactly for type `SPH` and an even asphere for every other type, including `ODD`, and always stores the parsed radius |
| Lenses.MissingKeys | lens-drawing/lens.py:110-111 | an asphere entry without `k` or `coefs` raises an error |
| Lenses.SphereIgnoresAsphereKeys | lens-drawing/lens.py:98-103 | a sphere entry reads the same whatever `k` and `coefs` hold |
| Lenses.SurfaceRoundTrip | lens-drawing/lens.py:62-114 | reading a surface's own entry raises nothing and gives back the surface, except that `ODD` comes back as `ASP` |
| Lenses.RoundTrip | lens-drawing/lens.py:55-133 | `from_dict(to_dict(L))` raises nothing and restores every field of `L`; the only change is `ODD` to `ASP` |
| Lenses.ReloadedType | lens-drawing/lens.py:98-111 | after the round trip, `SPH` stays `SPH` and both aspheres become `ASP`, with radius, diameters, `k` and coefficients unchanged |
| Lenses.RoundTripStable | lens-drawing/lens.py:55-133 | a lens read back from its own record reads back unchanged a second time |
| Lenses.RightRadiusAsWritten | lens-drawing/lens.py:117-128 | the right-surface branch as written stores `float(radius)` with the `inf` fallback for `SPH`, and for any other type the record's radius value unconverted |
| Lenses.RightRadiusAgreesOnNumbers | lens-drawing/lens.py:117-128 | for a numeric radius, the right-surface branch as written holds the same radius as the corrected loader |
| Lenses.RoundTripAsWritten | lens-drawing/lens.py:55-133 | so reading a lens's own record gives the right surface its radius back with the branch as written too |
| Lenses.RightRadiusNotConverted | lens-drawing/lens.py:125-128 | for a right surface that is not `SPH` with a text radius, the branch as written stores the text itself, which is no number and never the `inf` fallback, while the corrected loader holds the parsed radius |
| Lenses.Lens.constructor | lens-drawing/lens.py:25-41 | the given fields are stored and the description is empty; a missing surface becomes a fresh sphere with radius `inf` and zero diameters |
| Lenses.Lens.ToDict | lens-drawing/lens.py:55-86 | the record holds the name, material, thickness and description, and each surface entry is the entry of the surface object's data, with `k` and `coefs` exactly when it is not a sphere |
| Lenses.Lens.FromDict | lens-drawing/lens.py:88-133 | without a record nothing changes; otherwise the new state and the raised error are those of `LoadLens`; the left surface is a fresh object once the thickness converts and the right one once the left surface reads, and before that each keeps its old object |
| Lenses.NewSurface | lens-drawing/lens.py:98-114 | a fresh sphere or even asphere whose fields and error are those of `LoadSurface` |
| Lenses.SetInnerD | lens-drawing/lens.py:113 | only the inner diameter of the surface changes |
| Lenses.SetOuterD | lens-drawing/lens.py:114 | only the outer diameter of the surface changes |
| Notebook.MakeSurface | notebooks/lens.py:4-11 | the edge diameter is the clear diameter unless `ed` is given, and `ed` otherwise |
| Notebook.Sag | notebooks/lens.py:16-19 | the sag lies between the vertex and the centre of curvature: in `[0, r]` for `r > 0` and in `[r, 0]` for `r < 0` |
| Notebook.SagAsWritten | notebooks/lens.py:16-19 | the sag as written is `nan` exactly for radius 0, at every height, and otherwise the formula's value |
| Notebook.FlatSagIsNan | notebooks/lens.py:16-26 | a radius-0 surface, which `curvature` treats as flat, gets `nan` as written even at the vertex |
| Notebook.FlatAwareSag | notebooks/lens.py:16-26 | the corrected sag is 0 for radius 0 and the notebook formula otherwise |
| Notebook.FlatAwareSagMatchesCurvature | notebooks/lens.py:16-26 | for every radius, including the flat 0, the corrected sag is the drawing program's sphere sag for the surface's `curvature` |
| Notebook.SagAtVertex | notebooks/lens.py:16-19 | `sag(0) == 0` for every non-zero radius |
| Notebook.SagSymmetric | notebooks/lens.py:16-19 | `sag(-h) == sag(h)` |
| Notebook.SagOnCircle | notebooks/lens.py:16-19 | `(h, sag(h))` lies on the circle of radius `r` centred on the axis at distance `r` from the vertex |
| Notebook.SagMatchesSphere | notebooks/lens.py:16-19 | the notebook sag equals the drawing program's sphere sag with curvature `1/r` |
| Notebook.Curvature | notebooks/lens.py:21-26 | the curvature is 0 for radius 0, and otherwise a non-zero value `cv` with `cv * r == 1` |
| Notebook.CurvatureMatchesSphere | notebooks/lens.py:21-26 | for a non-zero radius, the notebook curvature equals the drawing program's `Sphere.c` |
| Notebook.CurvatureFlipped | notebooks/lens.py:21-26 | negating the radius negates the curvature |
| Notebook.MakeSinglet | notebooks/lens.py:29-33 | the material is `N-BK7` whatever `m` is, the thickness is `t`, and both surfaces are built from their arguments |
| Notebook.MechDiameter | notebooks/lens.py:35-37 | the mechanical diameter is at least both edge diameters and equals one of them |
| Notebook.Power | notebooks/lens.py:39-44 | a lens with one flat surface has the power of its curved surface alone, `(n-1)*cv1` or `-(n-1)*cv2`, whatever its thickness |
| Notebook.PowerSpecialCases | notebooks/lens.py:39-44 | two flat surfaces give power 0, and zero thickness gives `0.5 * (cv1 - cv2)` |
| Notebook.PowerFromRadii | notebooks/lens.py:39-44 | for curved surfaces the power is the thick-lens formula `(n-1)(1/R1 - 1/R2 + (n-1)t/(n R1 R2))` |
| Notebook.PowerReversed | notebooks/lens.py:39-44 | turning the singlet around leaves the power unchanged |
| Notebook.FocalLength | notebooks/lens.py:46-47 | the focal length is undefined exactly when the power is 0; otherwise it times the power is 1 |

## Left out

- `slope` in all three classes (`arctan` of the first derivative, in degrees): it is transcendental and is not modelled.
- `Sphere.deriv_2nd`, `local_curvature` and the base-class stubs return `None` in the source; they are not modelled.
- `Lens.volume`, `Lens.weight` and `Lens.edge_thickness` are stubs that return `None`; they are not modelled.
- `EvenAsphere.get_parameters` returns a tuple of three fields; it is not modelled. `Surface.__repr__` in the notebook is not modelled either.
- The `type` attribute is not a field; `SurfaceData.TypeName` derives it from the surface kind.
- Surface.EvenAsphere.LocalCurvature: `(1 + d^2)^(3/2)` is written as `(1 + d^2) * sqrt(1 + d^2)`, which is the same value for real `d`.
- Surface.EvenAsphere.LocalRadius: the local curvature is a numpy float, so at zero curvature `1/lc` gives `inf` with a `RuntimeWarning` and the `except ZeroDivisionError` never runs; the model returns `Infinity` there. The warning and the sign of a zero (`-0.0` gives `-inf`) are not modelled.
- Surface.OddAsphere.LocalRadius: the same as `Surface.EvenAsphere.LocalRadius`: `Infinity` at zero curvature, without the warning or the sign of a zero.
- Surface.EvenAsphere.Deriv2nd: the polynomial is summed before the four conic terms are added. The two parts are independent, so the value is the same. The same holds for `Surface.OddAsphere.Deriv2nd`.
- Surface.EvenAsphere.Sag and the other formulas require a finite `c` and a non-negative radicand. Derivatives need a positive radicand. The source yields `nan`, or a numpy divide warning, outside that range; IEEE `nan`, `-inf` radii and signed zeros are not modelled.
- Surface.Sphere.Sag and `Surface.Sphere.Deriv1st` have no contract of their own. Their properties are stated by `Profile.SphereSagOnCircle`, `Profile.SphereSlopeClosedForm`, `Profile.SphereSagSymmetric` and `Surface.FlatSphereSurface`.
- numpy vectorisation over arrays of heights is not modelled; every formula takes one scalar `h`.
- `np.sqrt` is a parameter constrained by `IsSqrt`, and `float()` of a text is the parameter `floatOfText`. Number parsing itself is not modelled.
- Lenses.RealOf: a thickness, `k`, coefficient or diameter that converts to `inf` is treated as a failed conversion. Those fields are finite reals in the model; only the radius can be infinite.
- Lenses.Lens.FromDict: the right surface's radius is read with `float()` and the `inf` fallback for every type, as the other three branches do. The source assigns a right asphere's radius without `float()`; that branch as written is `Lenses.RightRadiusAsWritten`, and the two agree on numeric radii (`Lenses.RightRadiusAgreesOnNumbers`). The same correction is in `Lenses.NewSurface`, `Lenses.LoadSurface` and `Lenses.LoadLens`.
- The record datatypes always carry `name`, `material`, `thickness`, `description`, `left`, `right`, `type`, `inner_d`, `outer_d` and `radius`. So a `KeyError` is modelled only for the optional `k` and `coefs`. A `TypeError` from a value of the wrong type is not modelled.
- `to_dict`'s distinction between a numpy array and a list of coefficients is not modelled: both are a sequence of reals.
- Notebook.SagAtVertex and the other notebook sag lemmas require `r != 0` and `h^2 <= r^2`. A root of a negative number yields `nan` and is not modelled. Radius 0 is covered by `Notebook.SagAsWritten` and `Notebook.FlatAwareSag` (see Findings).
- The GUI (`lens-drawing/drawing-gui.py`) and the DXF export (`notebooks/lens_drawing.py`) are not part of this model.

## Findings

| source | as written | input that shows it | evidently intended | confidence | as-written member | corrected member |
|---|---|---|---|---|---|---|
| lens-drawing/lens.py:125-128 | for a right surface that is not `SPH`, the radius is stored without `float()`, so the `except ValueError` fallback can never run | a record whose right surface has type `ASP` and radius text `"50"`: the stored radius is the text `"50"`, and `c` then fails on `1/"50"` | `float(radius)` with the `inf` fallback, as in the other three branches | high; not executed | Lenses.RightRadiusNotConverted | Lenses.ParseRadius |
| notebooks/lens.py:16-19 | `sag` divides by the radius, so a radius of 0 gives `nan` at every height, although `curvature` (lines 21-26) treats radius 0 as a flat surface | a surface with radius 0 and `h = 0`: `adj/r` is `0/0`, so the sag is `nan` instead of 0 | a flat surface has sag 0, consistent with its curvature 0 | medium; not executed | Notebook.FlatSagIsNan | Notebook.FlatAwareSagMatchesCurvature |
