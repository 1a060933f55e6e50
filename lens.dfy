/** The lens container of the drawing program: two surface objects, a
    thickness, a material, a name and a description, written to and read
    back from a nested record (the dictionary that is saved as JSON).
    Reading overwrites the lens fields one by one and builds fresh surface
    objects; a conversion that fails part way leaves the fields assigned
    so far in place, which the model keeps. */
module Lenses {
  import opened Numbers
  import opened Profile
  import opened Surface

  /** A scalar entry of the record: a number (possibly `inf`) or a text that
      `float()` has to parse. */
  datatype Field = Number(x: Extended) | Text(text: string)

  /** One surface entry: `type` (here `kind`), `inner_d`, `outer_d`, `radius`, and `k` and
      `coefs` when present. */
  datatype SurfaceRecord = SurfaceRecord(
    kind: string, innerD: Field, outerD: Field, radius: Field,
    k: Option<Field>, coefs: Option<seq<Field>>)

  /** The whole record: `name`, `material`, `thickness`, `description`,
      `left`, `right`. */
  datatype LensRecord = LensRecord(
    name: string, material: string, thickness: Field, description: string,
    left: SurfaceRecord, right: SurfaceRecord)

  /** The exceptions reading can raise: a text `float()` rejects, or a key
      missing from a surface entry. */
  datatype Error = ValueError | KeyError

  /** The observable state of a lens: its scalar fields and the data of its
      two surface objects. */
  datatype LensState = LensState(
    name: string, material: string, thickness: real, description: string,
    left: SurfaceData, right: SurfaceData)

  /** A reference to one of the three surface classes. */
  datatype SurfaceRef = SphereRef(sphere: Sphere) | EvenRef(even: EvenAsphere) | OddRef(odd: OddAsphere)

  function Obj(s: SurfaceRef): object
  {
    match s
    case SphereRef(o) => o
    case EvenRef(o) => o
    case OddRef(o) => o
  }

  function RefData(s: SurfaceRef): SurfaceData
    reads Obj(s)
  {
    match s
    case SphereRef(o) => o.Data()
    case EvenRef(o) => o.Data()
    case OddRef(o) => o.Data()
  }

  /* ----- float() ----- */

  /** `float(v)`: a number converts to itself; a text goes through the
      parser `floatOfText`, which answers `None` where Python raises
      `ValueError`. */
  function FloatOf(f: Field, floatOfText: string -> Option<Extended>): Option<Extended>
  {
    match f
    case Number(x) => Some(x)
    case Text(t) => floatOfText(t)
  }

  /** `float(v)` stored in a finite field (thickness, `k`, a coefficient, a
      diameter). */
  function RealOf(f: Field, floatOfText: string -> Option<Extended>): (v: Option<real>)
    ensures f.Number? && f.x.Finite? ==> v == Some(f.x.value)
    ensures v.Some? <==> FloatOf(f, floatOfText).Some? && FloatOf(f, floatOfText).value.Finite?
    ensures v.Some? ==> FloatOf(f, floatOfText) == Some(Finite(v.value))
  {
    match FloatOf(f, floatOfText)
    case Some(Finite(v)) => Some(v)
    case _ => None
  }

  /** `np.array(values, dtype=float)`: every entry converted, or a failure. */
  function RealsOf(fs: seq<Field>, floatOfText: string -> Option<Extended>): (vs: Option<seq<real>>)
    ensures vs.Some? <==> forall i :: 0 <= i < |fs| ==> RealOf(fs[i], floatOfText).Some?
    ensures vs.Some? ==> |vs.value| == |fs|
    ensures vs.Some? ==> forall i :: 0 <= i < |fs| ==> vs.value[i] == RealOf(fs[i], floatOfText).value
    decreases |fs|
  {
    if fs == [] then Some([])
    else match (RealsOf(fs[..|fs| - 1], floatOfText), RealOf(fs[|fs| - 1], floatOfText))
      case (Some(init), Some(last)) => Some(init + [last])
      case _ => None
  }

  /** Every converted entry is the number its field holds. */
  lemma {:induction false} RealsOfEntries(fs: seq<Field>, floatOfText: string -> Option<Extended>)
    requires RealsOf(fs, floatOfText).Some?
    ensures forall i :: 0 <= i < |fs| ==>
      FloatOf(fs[i], floatOfText) == Some(Finite(RealsOf(fs, floatOfText).value[i]))
  {
    if fs != [] {
      var init := fs[..|fs| - 1];
      RealsOfEntries(init, floatOfText);
      forall i | 0 <= i < |fs|
        ensures FloatOf(fs[i], floatOfText) == Some(Finite(RealsOf(fs, floatOfText).value[i]))
      {
        if i < |fs| - 1 {
          assert fs[i] == init[i];
        }
      }
    }
  }

  /** The coefficients written out as numbers convert back to themselves. */
  lemma {:induction false} RealsOfNumbers(coefs: seq<real>, floatOfText: string -> Option<Extended>)
    ensures RealsOf(NumberFields(coefs), floatOfText) == Some(coefs)
  {
    if coefs != [] {
      var init := coefs[..|coefs| - 1];
      RealsOfNumbers(init, floatOfText);
      assert NumberFields(coefs)[..|coefs| - 1] == NumberFields(init);
      assert coefs == init + [coefs[|coefs| - 1]];
    }
  }

  /** The radius as the loader reads it: `float(radius)`, or `inf` when the
      conversion raises `ValueError`. */
  function ParseRadius(f: Field, floatOfText: string -> Option<Extended>): (r: Extended)
    ensures FloatOf(f, floatOfText).Some? ==> r == FloatOf(f, floatOfText).value
    ensures FloatOf(f, floatOfText).None? ==> r == Infinity
  {
    match FloatOf(f, floatOfText)
    case Some(x) => x
    case None => Infinity
  }

  /** The only input that falls back: a text the parser rejects. */
  lemma RadiusFallback(f: Field, floatOfText: string -> Option<Extended>)
    ensures ParseRadius(f, floatOfText) == Infinity
        <==> (f == Number(Infinity) || (f.Text? && floatOfText(f.text) in {None, Some(Infinity)}))
  {
  }

  /* ----- to_dict ----- */

  function NumberFields(coefs: seq<real>): (fs: seq<Field>)
    ensures |fs| == |coefs| && forall i :: 0 <= i < |coefs| ==> fs[i] == Number(Finite(coefs[i]))
  {
    seq(|coefs|, i requires 0 <= i < |coefs| => Number(Finite(coefs[i])))
  }

  /** The entry of one surface: the four common keys, and `k` and `coefs`
      unless the surface is a sphere. */
  function SurfaceToRecord(d: SurfaceData): (rec: SurfaceRecord)
    ensures rec.kind == d.TypeName() && rec.radius == Number(d.r)
    ensures rec.innerD == Number(Finite(d.innerD)) && rec.outerD == Number(Finite(d.outerD))
    ensures rec.k.Some? <==> d.TypeName() != "SPH"
    ensures rec.coefs.Some? <==> d.TypeName() != "SPH"
    ensures rec.k.Some? ==> rec.k.value == Number(Finite(d.k))
    ensures rec.coefs.Some? ==>
      (|rec.coefs.value| == |d.coefs|
       && forall i :: 0 <= i < |d.coefs| ==> rec.coefs.value[i] == Number(Finite(d.coefs[i])))
  {
    var rec := SurfaceRecord(d.TypeName(), Number(Finite(d.innerD)), Number(Finite(d.outerD)), Number(d.r), None, None);
    if d.SphereData? then rec
    else rec.(k := Some(Number(Finite(d.k))), coefs := Some(NumberFields(d.coefs)))
  }

  /** `to_dict` of a lens state: the scalar fields as they are, and one
      entry per surface carrying its `type` and radius, with `k` and
      `coefs` exactly when the surface is not a sphere. */
  function LensToRecord(s: LensState): (rec: LensRecord)
    ensures rec.name == s.name && rec.material == s.material && rec.description == s.description
    ensures rec.thickness == Number(Finite(s.thickness))
    ensures rec.left.kind == s.left.TypeName() && rec.right.kind == s.right.TypeName()
    ensures rec.left.radius == Number(s.left.r) && rec.right.radius == Number(s.right.r)
    ensures rec.left.k.Some? <==> s.left.TypeName() != "SPH"
    ensures rec.right.k.Some? <==> s.right.TypeName() != "SPH"
    ensures rec.left.coefs.Some? <==> s.left.TypeName() != "SPH"
    ensures rec.right.coefs.Some? <==> s.right.TypeName() != "SPH"
    ensures rec.left == SurfaceToRecord(s.left) && rec.right == SurfaceToRecord(s.right)
  {
    LensRecord(s.name, s.material, Number(Finite(s.thickness)), s.description,
               SurfaceToRecord(s.left), SurfaceToRecord(s.right))
  }

  /* ----- from_dict ----- */

  /** A surface after reading: a fresh sphere for type `SPH`, a fresh even
      asphere for every other type, with the fields assigned so far and the
      exception that stopped the reading, if any. */
  function LoadSurface(d: SurfaceRecord, floatOfText: string -> Option<Extended>): (res: (SurfaceData, Option<Error>))
    ensures res.1.None? <==>
      BuildSurface(d, floatOfText).1.None? && RealOf(d.innerD, floatOfText).Some? && RealOf(d.outerD, floatOfText).Some?
    ensures res.1.None? ==>
      res.0.innerD == RealOf(d.innerD, floatOfText).value && res.0.outerD == RealOf(d.outerD, floatOfText).value
    ensures res.1.None? ==> res.0 == WithOuterD(WithInnerD(BuildSurface(d, floatOfText).0,
      RealOf(d.innerD, floatOfText).value), RealOf(d.outerD, floatOfText).value)
    ensures BuildSurface(d, floatOfText).1.Some? ==> res == BuildSurface(d, floatOfText)
    ensures BuildSurface(d, floatOfText).1.None? && RealOf(d.innerD, floatOfText).None? ==>
      res == (BuildSurface(d, floatOfText).0, Some(ValueError))
    ensures BuildSurface(d, floatOfText).1.None? && RealOf(d.innerD, floatOfText).Some? && RealOf(d.outerD, floatOfText).None? ==>
      res == (WithInnerD(BuildSurface(d, floatOfText).0, RealOf(d.innerD, floatOfText).value), Some(ValueError))
  {
    var (built, err) := BuildSurface(d, floatOfText);
    if err.Some? then (built, err)
    else match RealOf(d.innerD, floatOfText)
      case None => (built, Some(ValueError))
      case Some(inner) =>
        match RealOf(d.outerD, floatOfText)
        case None => (WithInnerD(built, inner), Some(ValueError))
        case Some(outer) => (WithOuterD(WithInnerD(built, inner), outer), None)
  }

  function WithInnerD(d: SurfaceData, v: real): SurfaceData
  {
    d.(innerD := v)
  }

  function WithOuterD(d: SurfaceData, v: real): SurfaceData
  {
    d.(outerD := v)
  }

  /** The type-dependent part: the radius, then `k` and `coefs` for an
      asphere. */
  function BuildSurface(d: SurfaceRecord, floatOfText: string -> Option<Extended>): (res: (SurfaceData, Option<Error>))
    ensures res.0.SphereData? <==> d.kind == "SPH"
    ensures res.0.EvenData? <==> d.kind != "SPH"
    ensures res.0.r == ParseRadius(d.radius, floatOfText)
    ensures res.0.innerD == 0.0 && res.0.outerD == 0.0
    ensures d.kind == "SPH" ==> res.1.None?
    ensures d.kind != "SPH" ==> (res.1.None? <==>
      d.k.Some? && d.coefs.Some? && RealOf(d.k.value, floatOfText).Some? && RealsOf(d.coefs.value, floatOfText).Some?)
    ensures d.kind != "SPH" && res.1.None? ==>
      res.0.k == RealOf(d.k.value, floatOfText).value && res.0.coefs == RealsOf(d.coefs.value, floatOfText).value
    ensures res.1 == Some(KeyError) ==> d.k.None? || d.coefs.None?
  {
    var r := ParseRadius(d.radius, floatOfText);
    if d.kind == "SPH" then (SphereData(r, 0.0, 0.0), None)
    else
      if d.k.None? then (EvenData(r, 0.0, DefaultCoefs(), 0.0, 0.0), Some(KeyError))
      else match RealOf(d.k.value, floatOfText)
        case None => (EvenData(r, 0.0, DefaultCoefs(), 0.0, 0.0), Some(ValueError))
        case Some(k) =>
          if d.coefs.None? then (EvenData(r, k, DefaultCoefs(), 0.0, 0.0), Some(KeyError))
          else match RealsOf(d.coefs.value, floatOfText)
            case None => (EvenData(r, k, DefaultCoefs(), 0.0, 0.0), Some(ValueError))
            case Some(coefs) => (EvenData(r, k, coefs, 0.0, 0.0), None)
  }

  /** The lens after reading record `d` into state `s`: the fields in the
      order the loader assigns them, stopping at the first exception. */
  function LoadLens(s: LensState, d: LensRecord, floatOfText: string -> Option<Extended>): (res: (LensState, Option<Error>))
    ensures res.0.name == d.name && res.0.material == d.material
    ensures res.1.None? <==> (RealOf(d.thickness, floatOfText).Some?
      && LoadSurface(d.left, floatOfText).1.None? && LoadSurface(d.right, floatOfText).1.None?)
    ensures res.1.None? ==> res.0 == LensState(d.name, d.material, RealOf(d.thickness, floatOfText).value,
      d.description, LoadSurface(d.left, floatOfText).0, LoadSurface(d.right, floatOfText).0)
  {
    var named := s.(name := d.name, material := d.material);
    match RealOf(d.thickness, floatOfText)
    case None => (named, Some(ValueError))
    case Some(t) =>
      var (l, le) := LoadSurface(d.left, floatOfText);
      var withLeft := named.(thickness := t, description := d.description, left := l);
      if le.Some? then (withLeft, le)
      else
        var (r, re) := LoadSurface(d.right, floatOfText);
        (withLeft.(right := r), re)
  }

  /** `LoadLens` path by path: where the loader stops and what it has
      assigned by then. */
  lemma LoadLensSteps(s: LensState, d: LensRecord, floatOfText: string -> Option<Extended>)
    ensures RealOf(d.thickness, floatOfText).None? ==>
      LoadLens(s, d, floatOfText) == (LensState(d.name, d.material, s.thickness, s.description, s.left, s.right), Some(ValueError))
    ensures RealOf(d.thickness, floatOfText).Some? ==>
      var withLeft := LensState(d.name, d.material, RealOf(d.thickness, floatOfText).value, d.description,
                                LoadSurface(d.left, floatOfText).0, s.right);
      LoadLens(s, d, floatOfText) ==
        if LoadSurface(d.left, floatOfText).1.Some? then (withLeft, LoadSurface(d.left, floatOfText).1)
        else (withLeft.(right := LoadSurface(d.right, floatOfText).0), LoadSurface(d.right, floatOfText).1)
  {
  }

  /** Reading builds a sphere exactly for type `SPH` and an even asphere
      for any other type; the data never says `ODD`. */
  lemma LoadedKind(d: SurfaceRecord, floatOfText: string -> Option<Extended>)
    ensures LoadSurface(d, floatOfText).0.SphereData? <==> d.kind == "SPH"
    ensures LoadSurface(d, floatOfText).0.EvenData? <==> d.kind != "SPH"
    ensures LoadSurface(d, floatOfText).0.r == ParseRadius(d.radius, floatOfText)
  {
  }

  /** An entry missing `k` or `coefs` is an error only for an asphere. */
  lemma MissingKeys(d: SurfaceRecord, floatOfText: string -> Option<Extended>)
    requires d.kind != "SPH" && (d.k.None? || d.coefs.None?)
    ensures LoadSurface(d, floatOfText).1 != None
  {
  }

  /** A sphere entry reads whatever `k` and `coefs` hold. */
  lemma SphereIgnoresAsphereKeys(d: SurfaceRecord, k: Option<Field>, coefs: Option<seq<Field>>,
                                 floatOfText: string -> Option<Extended>)
    requires d.kind == "SPH"
    ensures LoadSurface(d.(k := k, coefs := coefs), floatOfText) == LoadSurface(d, floatOfText)
  {
  }

  /** A surface read back from its own entry: a sphere is unchanged, and an
      asphere of either kind comes back as an even asphere with the same
      radius, `k`, coefficients and diameters. */
  function Reloaded(d: SurfaceData): (e: SurfaceData)
  {
    match d
    case OddData(r, k, coefs, inner, outer) => EvenData(r, k, coefs, inner, outer)
    case _ => d
  }

  lemma SurfaceRoundTrip(d: SurfaceData, floatOfText: string -> Option<Extended>)
    ensures LoadSurface(SurfaceToRecord(d), floatOfText) == (Reloaded(d), None)
  {
    if !d.SphereData? {
      RealsOfNumbers(d.coefs, floatOfText);
    }
  }

  /** `from_dict(to_dict(L))` restores every field of `L` and raises nothing;
      the only change is that an `ODD` surface comes back as `ASP`. */
  lemma RoundTrip(s0: LensState, s: LensState, floatOfText: string -> Option<Extended>)
    ensures LoadLens(s0, LensToRecord(s), floatOfText)
         == (s.(left := Reloaded(s.left), right := Reloaded(s.right)), None)
  {
    SurfaceRoundTrip(s.left, floatOfText);
    SurfaceRoundTrip(s.right, floatOfText);
  }

  /** What the round trip does to the `type` tags. */
  lemma ReloadedType(d: SurfaceData)
    ensures Reloaded(d).TypeName() == if d.TypeName() == "SPH" then "SPH" else "ASP"
    ensures Reloaded(d).r == d.r && Reloaded(d).innerD == d.innerD && Reloaded(d).outerD == d.outerD
    ensures !d.SphereData? ==> Reloaded(d).k == d.k && Reloaded(d).coefs == d.coefs
  {
  }

  /** Reading is a fixed point after one round: a lens read back from its
      own record is read back unchanged the second time. */
  lemma RoundTripStable(s0: LensState, s: LensState, floatOfText: string -> Option<Extended>)
    ensures var s1 := LoadLens(s0, LensToRecord(s), floatOfText).0;
            LoadLens(s0, LensToRecord(s1), floatOfText) == (s1, None)
  {
    RoundTrip(s0, s, floatOfText);
    var s1 := s.(left := Reloaded(s.left), right := Reloaded(s.right));
    RoundTrip(s0, s1, floatOfText);
  }

  /* ----- The right asphere radius as written ----- */

  /** The radius a loaded surface object holds: a number parsed by
      `float()`, or the record's value itself, unconverted. */
  datatype StoredRadius = Parsed(r: Extended) | Raw(f: Field)

  /** The right-surface branch of the loader as written: `float()` with the
      `inf` fallback for `SPH`, and for any other type the record's radius
      value assigned as it is. Every other field is read as in
      `LoadSurface`. */
  function RightRadiusAsWritten(d: SurfaceRecord, floatOfText: string -> Option<Extended>): (stored: StoredRadius)
    ensures d.kind == "SPH" ==> stored == Parsed(ParseRadius(d.radius, floatOfText))
    ensures d.kind != "SPH" ==> stored == Raw(d.radius)
  {
    if d.kind == "SPH" then Parsed(ParseRadius(d.radius, floatOfText)) else Raw(d.radius)
  }

  /** The number the surface's `c` divides by: a parsed radius, or a number
      stored unconverted; a text is no number, and `1/r` on it raises
      `TypeError`. */
  function RadiusNumber(stored: StoredRadius): Option<Extended>
  {
    match stored
    case Parsed(r) => Some(r)
    case Raw(Number(x)) => Some(x)
    case Raw(Text(_)) => None
  }

  /** On a numeric radius, as every record `to_dict` writes has, the loader
      as written and the corrected `LoadSurface` hold the same radius. */
  lemma RightRadiusAgreesOnNumbers(d: SurfaceRecord, floatOfText: string -> Option<Extended>)
    requires d.radius.Number?
    ensures RadiusNumber(RightRadiusAsWritten(d, floatOfText)) == Some(LoadSurface(d, floatOfText).0.r)
  {
  }

  /** So the round trip holds for the loader as written too: reading a
      lens's own record gives the right surface its radius back. */
  lemma RoundTripAsWritten(s0: LensState, s: LensState, floatOfText: string -> Option<Extended>)
    ensures RadiusNumber(RightRadiusAsWritten(LensToRecord(s).right, floatOfText)) == Some(s.right.r)
  {
    RightRadiusAgreesOnNumbers(LensToRecord(s).right, floatOfText);
    RoundTrip(s0, s, floatOfText);
  }

  /** On a text radius of a right surface that is not `SPH`, the loader as
      written keeps the text, which is no number and never the `inf`
      fallback, while `LoadSurface` holds the parsed radius. */
  lemma RightRadiusNotConverted(d: SurfaceRecord, t: string, floatOfText: string -> Option<Extended>)
    requires d.kind != "SPH" && d.radius == Text(t)
    ensures RightRadiusAsWritten(d, floatOfText) == Raw(Text(t))
    ensures RadiusNumber(RightRadiusAsWritten(d, floatOfText)).None?
    ensures RightRadiusAsWritten(d, floatOfText) != Parsed(Infinity)
    ensures LoadSurface(d, floatOfText).0.r == ParseRadius(Text(t), floatOfText)
  {
  }

  /* ----- The lens object ----- */

  class Lens {
    var name: string
    var description: string
    var left: SurfaceRef
    var right: SurfaceRef
    var thickness: real
    var material: string

    /** Missing surfaces default to fresh flat spheres; the description
        starts empty. */
    constructor (leftSurf: Option<SurfaceRef> := None, rightSurf: Option<SurfaceRef> := None,
                 name: string := "", thickness: real := 0.0, material: string := "")
      ensures this.name == name && description == "" && this.thickness == thickness && this.material == material
      ensures leftSurf.Some? ==> left == leftSurf.value
      ensures leftSurf.None? ==> left.SphereRef? && fresh(Obj(left)) && RefData(left) == SphereData(Infinity, 0.0, 0.0)
      ensures rightSurf.Some? ==> right == rightSurf.value
      ensures rightSurf.None? ==> right.SphereRef? && fresh(Obj(right)) && RefData(right) == SphereData(Infinity, 0.0, 0.0)
    {
      this.name := name;
      description := "";
      if leftSurf.None? {
        var o := new Sphere();
        left := SphereRef(o);
      } else {
        left := leftSurf.value;
      }
      if rightSurf.None? {
        var o := new Sphere();
        right := SphereRef(o);
      } else {
        right := rightSurf.value;
      }
      this.thickness := thickness;
      this.material := material;
    }

    function State(): LensState
      reads this, Obj(left), Obj(right)
    {
      LensState(name, material, thickness, description, RefData(left), RefData(right))
    }

    /** `to_dict`: every scalar field and both surface entries, `k` and
        `coefs` only for a surface that is not a sphere. */
    function ToDict(): (rec: LensRecord)
      reads this, Obj(left), Obj(right)
      ensures rec.name == name && rec.material == material && rec.description == description
      ensures rec.thickness == Number(Finite(thickness))
      ensures rec.left.k.Some? <==> RefData(left).TypeName() != "SPH"
      ensures rec.right.k.Some? <==> RefData(right).TypeName() != "SPH"
      ensures rec.left.coefs.Some? <==> RefData(left).TypeName() != "SPH"
      ensures rec.right.coefs.Some? <==> RefData(right).TypeName() != "SPH"
      ensures rec.left == SurfaceToRecord(RefData(left)) && rec.right == SurfaceToRecord(RefData(right))
    {
      LensToRecord(State())
    }

    /** `from_dict`: nothing happens without a record; otherwise the fields
        are overwritten in the loader's order, with fresh surface objects,
        until the first exception, which is returned. */
    method FromDict(dct: Option<LensRecord>, floatOfText: string -> Option<Extended>) returns (err: Option<Error>)
      modifies this
      ensures dct.None? ==> err.None? && unchanged(this) && State() == old(State())
      ensures dct.Some? ==> State() == LoadLens(old(State()), dct.value, floatOfText).0
      ensures dct.Some? ==> err == LoadLens(old(State()), dct.value, floatOfText).1
      ensures dct.Some? && RealOf(dct.value.thickness, floatOfText).None? ==> left == old(left) && right == old(right)
      ensures dct.Some? && RealOf(dct.value.thickness, floatOfText).Some? ==> fresh(Obj(left))
      ensures dct.Some? && RealOf(dct.value.thickness, floatOfText).Some? && LoadSurface(dct.value.left, floatOfText).1.Some? ==>
        right == old(right)
      ensures dct.Some? && RealOf(dct.value.thickness, floatOfText).Some? && LoadSurface(dct.value.left, floatOfText).1.None? ==>
        fresh(Obj(right))
    {
      if dct.None? {
        return None;
      }
      var d := dct.value;
      LoadLensSteps(State(), d, floatOfText);
      assert Obj(right) != this && allocated(Obj(right));
      name := d.name;
      material := d.material;
      var t := RealOf(d.thickness, floatOfText);
      if t.None? {
        return Some(ValueError);
      }
      thickness := t.value;
      description := d.description;
      var l, le := NewSurface(d.left, floatOfText);
      left := l;
      if le.Some? {
        return le;
      }
      var r, re := NewSurface(d.right, floatOfText);
      right := r;
      return re;
    }
  }

  /** One surface entry read into a fresh object: the object and its fields
      are assigned in the loader's order. */
  method NewSurface(d: SurfaceRecord, floatOfText: string -> Option<Extended>) returns (s: SurfaceRef, err: Option<Error>)
    ensures fresh(Obj(s)) && !s.OddRef?
    ensures (RefData(s), err) == LoadSurface(d, floatOfText)
  {
    if d.kind == "SPH" {
      var o := new Sphere();
      o.r := ParseRadius(d.radius, floatOfText);
      s := SphereRef(o);
    } else {
      var o := new EvenAsphere();
      o.r := ParseRadius(d.radius, floatOfText);
      s := EvenRef(o);
      if d.k.None? {
        return s, Some(KeyError);
      }
      var k := RealOf(d.k.value, floatOfText);
      if k.None? {
        return s, Some(ValueError);
      }
      o.k := k.value;
      if d.coefs.None? {
        return s, Some(KeyError);
      }
      var coefs := RealsOf(d.coefs.value, floatOfText);
      if coefs.None? {
        return s, Some(ValueError);
      }
      o.coefs := coefs.value;
    }
    var inner := RealOf(d.innerD, floatOfText);
    if inner.None? {
      return s, Some(ValueError);
    }
    SetInnerD(s, inner.value);
    var outer := RealOf(d.outerD, floatOfText);
    if outer.None? {
      return s, Some(ValueError);
    }
    SetOuterD(s, outer.value);
    err := None;
  }

  method SetInnerD(s: SurfaceRef, v: real)
    modifies Obj(s)
    ensures RefData(s) == old(RefData(s)).(innerD := v)
  {
    match s
    case SphereRef(o) => o.innerD := v;
    case EvenRef(o) => o.innerD := v;
    case OddRef(o) => o.innerD := v;
  }

  method SetOuterD(s: SurfaceRef, v: real)
    modifies Obj(s)
    ensures RefData(s) == old(RefData(s)).(outerD := v)
  {
    match s
    case SphereRef(o) => o.outerD := v;
    case EvenRef(o) => o.outerD := v;
    case OddRef(o) => o.outerD := v;
  }
}
