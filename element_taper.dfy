/** `oskar_apply_element_taper_gaussian`: multiplies every component of each
    of the first `numSources` Jones elements by a per-source factor.  The
    factor, exp(-theta^2 * 4 ln 2 / fwhm^2) in the source, is a parameter of
    the model: `factor(theta[i], fwhm)`.  The single- and double-precision
    loops are the same loop over `real`. */
module ElementTaper {
  import opened Status
  import opened MemBuffer

  type TaperFactor = (real, real) -> real

  /** The taper factor of a source at angle `theta` for a beam of width `fwhm`. */
  function Factor(factor: TaperFactor, theta: real, fwhm: real): real {
    factor(theta, fwhm)
  }

  /** The real values held by a block of real elements (the `theta` array). */
  function RealsOf(es: seq<Element>): (r: seq<real>)
    ensures |r| == |es|
    ensures forall i :: 0 <= i < |es| && es[i].RealValue? ==> r[i] == es[i].r
  {
    if es == [] then [] else [if es[0].RealValue? then es[0].r else 0.0] + RealsOf(es[1..])
  }

  /** The Jones elements after tapering: element i below `numSources` has
      all of its components multiplied by factor(theta[i], fwhm); the rest
      are as they were. */
  function Tapered(jones: seq<Element>, numSources: int, fwhm: real, theta: seq<real>,
                   factor: TaperFactor): (r: seq<Element>)
    requires numSources <= |jones| && numSources <= |theta|
    ensures |r| == |jones|
    ensures forall i :: 0 <= i < |jones| ==> KindOf(r[i]) == KindOf(jones[i])
    ensures forall i :: 0 <= i < |jones| && !(i < numSources) ==> r[i] == jones[i]
  {
    var r := seq(|jones|, i requires 0 <= i < |jones| =>
      if i < numSources then ScaleElement(jones[i], Factor(factor, theta[i], fwhm)) else jones[i]);
    assert forall i :: 0 <= i < numSources ==> r[i] == ScaleElement(jones[i], Factor(factor, theta[i], fwhm));
    r
  }

  /** Each component of a tapered element is the original component times
      the element's factor. */
  lemma TaperedComponents(jones: seq<Element>, numSources: int, fwhm: real, theta: seq<real>,
                          factor: TaperFactor)
    requires numSources <= |jones| && numSources <= |theta|
    ensures forall i, j :: 0 <= i < numSources && 0 <= j < |Components(jones[i])| ==>
              Components(Tapered(jones, numSources, fwhm, theta, factor)[i])[j]
              == Components(jones[i])[j] * Factor(factor, theta[i], fwhm)
  {
    var r := Tapered(jones, numSources, fwhm, theta, factor);
    forall i | 0 <= i < numSources
      ensures forall j :: 0 <= j < |Components(jones[i])| ==>
                Components(r[i])[j] == Components(jones[i])[j] * Factor(factor, theta[i], fwhm)
    {
      assert r[i] == ScaleElement(jones[i], Factor(factor, theta[i], fwhm));
      ScaleElementComponents(jones[i], Factor(factor, theta[i], fwhm));
    }
  }

  /** With a factor that does not depend on theta, tapering every element is
      `scale_real` by that constant. */
  lemma {:induction false} TaperWithConstantFactorIsScale(jones: seq<Element>, theta: seq<real>,
                                                          fwhm: real, c: real, factor: TaperFactor)
    requires |jones| <= |theta|
    requires forall t :: Factor(factor, t, fwhm) == c
    ensures Tapered(jones, |jones|, fwhm, theta, factor) == Scaled(jones, c)
  {
    var r := Tapered(jones, |jones|, fwhm, theta, factor);
    forall i | 0 <= i < |jones|
      ensures r[i] == Scaled(jones, c)[i]
    {
      var t := theta[i];
      assert Factor(factor, t, fwhm) == c;
      assert r[i] == ScaleElement(jones[i], Factor(factor, t, fwhm));
    }
  }

  /** A tapered element below `numSources` is the element scaled by its factor. */
  lemma TaperedAt(jones: seq<Element>, numSources: int, fwhm: real, theta: seq<real>,
                  factor: TaperFactor, i: int)
    requires numSources <= |jones| && numSources <= |theta| && 0 <= i < numSources
    ensures Tapered(jones, numSources, fwhm, theta, factor)[i] == ScaleElement(jones[i], Factor(factor, theta[i], fwhm))
  {
  }

  /** Tapering twice multiplies each tapered element by the product of the two factors. */
  lemma {:induction false} TaperTwice(jones: seq<Element>, numSources: int, fwhm1: real, fwhm2: real,
                                      theta: seq<real>, factor: TaperFactor, i: int)
    requires numSources <= |jones| && numSources <= |theta|
    requires 0 <= i < numSources
    ensures Tapered(Tapered(jones, numSources, fwhm1, theta, factor), numSources, fwhm2, theta, factor)[i]
            == ScaleElement(jones[i], Factor(factor, theta[i], fwhm1) * Factor(factor, theta[i], fwhm2))
  {
    var once := Tapered(jones, numSources, fwhm1, theta, factor);
    var e, f1, f2 := jones[i], Factor(factor, theta[i], fwhm1), Factor(factor, theta[i], fwhm2);
    TaperedAt(jones, numSources, fwhm1, theta, factor, i);
    TaperedAt(once, numSources, fwhm2, theta, factor, i);
    ScaleElementTwice(e, f1, f2);
    var twice := Tapered(once, numSources, fwhm2, theta, factor);
    assert twice[i] == ScaleElement(once[i], f2);
    assert once[i] == ScaleElement(e, f1);
    assert twice[i] == ScaleElement(ScaleElement(e, f1), f2);
    assert ScaleElement(ScaleElement(e, f1), f2) == ScaleElement(e, f1 * f2);
    assert twice[i] == ScaleElement(e, f1 * f2);
  }

  /** `oskar_apply_element_taper_gaussian_scalar_f` / `_scalar_d`. */
  method TaperScalar(jones: array<Element>, numSources: int, fwhm: real, theta: seq<real>,
                     factor: TaperFactor)
    requires numSources <= jones.Length && numSources <= |theta|
    requires forall i :: 0 <= i < numSources ==> jones[i].ComplexValue?
    modifies jones
    ensures forall i :: 0 <= i < numSources ==>
              jones[i] == ComplexValue(Complex(old(jones[i]).z.x * Factor(factor, theta[i], fwhm),
                                               old(jones[i]).z.y * Factor(factor, theta[i], fwhm)))
    ensures jones[..] == Tapered(old(jones[..]), numSources, fwhm, theta, factor)
  {
    var i := 0;
    while i < numSources
      invariant 0 <= i && (i <= numSources || i == 0)
      invariant forall j :: 0 <= j < jones.Length ==>
                  jones[j] == if j < i then ScaleElement(old(jones[j]), Factor(factor, theta[j], fwhm)) else old(jones[j])
    {
      var f := Factor(factor, theta[i], fwhm);
      var z := jones[i].z;
      jones[i] := ComplexValue(Complex(z.x * f, z.y * f));
      i := i + 1;
    }
  }

  /** `oskar_apply_element_taper_gaussian_matrix_f` / `_matrix_d`. */
  method TaperMatrix(jones: array<Element>, numSources: int, fwhm: real, theta: seq<real>,
                     factor: TaperFactor)
    requires numSources <= jones.Length && numSources <= |theta|
    requires forall i :: 0 <= i < numSources ==> jones[i].MatrixValue?
    modifies jones
    ensures forall i :: 0 <= i < numSources ==> jones[i].MatrixValue?
    ensures jones[..] == Tapered(old(jones[..]), numSources, fwhm, theta, factor)
  {
    var i := 0;
    while i < numSources
      invariant 0 <= i && (i <= numSources || i == 0)
      invariant forall j :: 0 <= j < jones.Length ==>
                  jones[j] == if j < i then ScaleElement(old(jones[j]), Factor(factor, theta[j], fwhm)) else old(jones[j])
    {
      var f := Factor(factor, theta[i], fwhm);
      var m := jones[i].m;
      jones[i] := MatrixValue(Matrix(Complex(m.a.x * f, m.a.y * f), Complex(m.b.x * f, m.b.y * f),
                                     Complex(m.c.x * f, m.c.y * f), Complex(m.d.x * f, m.d.y * f)));
      i := i + 1;
    }
  }

  predicate IsFloating(p: Precision) { p == Single || p == Double }

  /** The status the wrapper leaves behind, as one flat decision list. */
  function TaperStatus(status: Status, jonesType: MemType, jonesLocation: Location,
                       thetaType: MemType, thetaLocation: Location, haveCuda: bool): (s: Status)
    ensures status != Success ==> s == status
    ensures s == Success <==>
              && status == Success && thetaLocation == jonesLocation
              && thetaType == MemType(jonesType.precision, RealKind)
              && (!IsFloating(jonesType.precision)
                  || TaperRuns(status, jonesType, jonesLocation, thetaType, thetaLocation, haveCuda))
  {
    if status != Success then status
    else if thetaLocation != jonesLocation then Error(LocationMismatch)
    else if thetaType != MemType(jonesType.precision, RealKind) then Error(TypeMismatch)
    else if !IsFloating(jonesType.precision) then Success
    else if jonesLocation == GPU && !haveCuda then Error(CudaNotAvailable)
    else if jonesLocation == OtherLocation then Error(BadLocation)
    else if jonesType.kind == RealKind then Error(BadDataType)
    else Success
  }

  /** Whether one of the tapering loops runs (on the host, or its device twin). */
  predicate TaperRuns(status: Status, jonesType: MemType, jonesLocation: Location,
                      thetaType: MemType, thetaLocation: Location, haveCuda: bool)
  {
    && status == Success
    && thetaLocation == jonesLocation
    && thetaType == MemType(jonesType.precision, RealKind)
    && IsFloating(jonesType.precision)
    && (jonesLocation == CPU || (jonesLocation == GPU && haveCuda))
    && jonesType.kind != RealKind
  }

  /** The loops run exactly when the wrapper succeeds on a floating-point
      Jones type; a failed or pre-set status never runs them. */
  lemma {:induction false} TaperRunsIffSuccess(status: Status, jonesType: MemType, jonesLocation: Location,
                                               thetaType: MemType, thetaLocation: Location, haveCuda: bool)
    ensures TaperRuns(status, jonesType, jonesLocation, thetaType, thetaLocation, haveCuda) <==>
              (status == Success && IsFloating(jonesType.precision) && thetaLocation == jonesLocation
               && thetaType == MemType(jonesType.precision, RealKind)
               && TaperStatus(status, jonesType, jonesLocation, thetaType, thetaLocation, haveCuda) == Success)
    ensures status != Success ==>
              TaperStatus(status, jonesType, jonesLocation, thetaType, thetaLocation, haveCuda) == status
  {
  }

  /** The order of the checks: incoming status, co-location, then type. */
  lemma TaperCheckOrder(status: Status, jonesType: MemType, jonesLocation: Location,
                        thetaType: MemType, thetaLocation: Location, haveCuda: bool)
    ensures status == Success && thetaLocation != jonesLocation ==>
              TaperStatus(status, jonesType, jonesLocation, thetaType, thetaLocation, haveCuda)
              == Error(LocationMismatch)
    ensures status == Success && thetaLocation == jonesLocation
            && thetaType != MemType(jonesType.precision, RealKind) ==>
              TaperStatus(status, jonesType, jonesLocation, thetaType, thetaLocation, haveCuda)
              == Error(TypeMismatch)
    ensures status == Success && thetaLocation == jonesLocation
            && thetaType == MemType(jonesType.precision, RealKind) && !IsFloating(jonesType.precision) ==>
              TaperStatus(status, jonesType, jonesLocation, thetaType, thetaLocation, haveCuda) == Success
              && !TaperRuns(status, jonesType, jonesLocation, thetaType, thetaLocation, haveCuda)
  {
  }

  /** The wrapper: validates the tags, then dispatches on precision, location
      and type.  `haveCuda` stands for the OSKAR_HAVE_CUDA build flag. */
  method ApplyElementTaperGaussian(jones: Mem, numSources: int, fwhm: real, theta: Mem,
                                   status: Status, haveCuda: bool, factor: TaperFactor)
    returns (result: Status)
    requires jones.Valid() && theta.Valid()
    requires TaperRuns(status, jones.memType, jones.location, theta.memType, theta.location, haveCuda) ==>
               numSources <= jones.data.Length && numSources <= theta.data.Length
    modifies jones.data
    ensures jones.Valid()
    ensures result == TaperStatus(status, jones.memType, jones.location, theta.memType, theta.location, haveCuda)
    ensures jones.data[..] ==
              if TaperRuns(status, jones.memType, jones.location, theta.memType, theta.location, haveCuda)
              then Tapered(old(jones.data[..]), numSources, fwhm, RealsOf(old(theta.data[..])), factor)
              else old(jones.data[..])
  {
    result := status;
    if status != Success {
      return;
    }
    var precision, kind, location := jones.memType.precision, jones.memType.kind, jones.location;

    if theta.location != location {
      return Error(LocationMismatch);
    }
    if theta.memType != MemType(precision, RealKind) {
      return Error(TypeMismatch);
    }

    if IsFloating(precision) {
      var thetaValues := RealsOf(theta.data[..]);
      if location == GPU {
        if haveCuda {
          if kind == ComplexKind {
            TaperScalar(jones.data, numSources, fwhm, thetaValues, factor);
          } else if kind == MatrixKind {
            TaperMatrix(jones.data, numSources, fwhm, thetaValues, factor);
          } else {
            result := Error(BadDataType);
          }
        } else {
          result := Error(CudaNotAvailable);
        }
      } else if location == CPU {
        if kind == ComplexKind {
          TaperScalar(jones.data, numSources, fwhm, thetaValues, factor);
        } else if kind == MatrixKind {
          TaperMatrix(jones.data, numSources, fwhm, thetaValues, factor);
        } else {
          result := Error(BadDataType);
        }
      } else {
        result := Error(BadLocation);
      }
    }
  }
}
