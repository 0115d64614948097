/** The typed memory block `oskar_Mem`: a type tag (precision x kind), a
    location tag and an array of elements, each of which holds 1, 2 or 8 real
    components.  Location is only a tag here: no transfer between host and
    device is modelled, so a copy "to the GPU" is a copy. */
module MemBuffer {
  import opened Status

  datatype Precision = Single | Double | Integer
  datatype Kind = RealKind | ComplexKind | MatrixKind
  datatype MemType = MemType(precision: Precision, kind: Kind)
  datatype Location = CPU | GPU | OtherLocation

  // The six floating-point type tags.
  const SINGLE := MemType(Single, RealKind)
  const DOUBLE := MemType(Double, RealKind)
  const SINGLE_COMPLEX := MemType(Single, ComplexKind)
  const DOUBLE_COMPLEX := MemType(Double, ComplexKind)
  const SINGLE_COMPLEX_MATRIX := MemType(Single, MatrixKind)
  const DOUBLE_COMPLEX_MATRIX := MemType(Double, MatrixKind)

  /** `oskar_Mem::is_double(type)`: the three double-precision tags. */
  predicate IsDoubleType(t: MemType): (b: bool)
    ensures b <==> t == DOUBLE || t == DOUBLE_COMPLEX || t == DOUBLE_COMPLEX_MATRIX
  {
    assert t.kind.RealKind? || t.kind.ComplexKind? || t.kind.MatrixKind?;
    t.precision == Double
  }

  /** `oskar_Mem::is_complex(type)`: elements of two or more components. */
  predicate IsComplexType(t: MemType): (b: bool)
    ensures b <==> ComponentCount(t.kind) >= 2
  {
    t.kind != RealKind
  }

  /** `oskar_Mem::is_scalar(type)`: elements of at most two components. */
  predicate IsScalarType(t: MemType): (b: bool)
    ensures b <==> ComponentCount(t.kind) <= 2
  {
    t.kind != MatrixKind
  }

  /** The truth table that the type-check test asserts for the six tags. */
  lemma TypePredicateTable()
    ensures !IsDoubleType(SINGLE) && !IsComplexType(SINGLE) && IsScalarType(SINGLE)
    ensures IsDoubleType(DOUBLE) && !IsComplexType(DOUBLE) && IsScalarType(DOUBLE)
    ensures !IsDoubleType(SINGLE_COMPLEX) && IsComplexType(SINGLE_COMPLEX) && IsScalarType(SINGLE_COMPLEX)
    ensures IsDoubleType(DOUBLE_COMPLEX) && IsComplexType(DOUBLE_COMPLEX) && IsScalarType(DOUBLE_COMPLEX)
    ensures !IsDoubleType(SINGLE_COMPLEX_MATRIX) && IsComplexType(SINGLE_COMPLEX_MATRIX)
            && !IsScalarType(SINGLE_COMPLEX_MATRIX)
    ensures IsDoubleType(DOUBLE_COMPLEX_MATRIX) && IsComplexType(DOUBLE_COMPLEX_MATRIX)
            && !IsScalarType(DOUBLE_COMPLEX_MATRIX)
  {
  }

  datatype Complex = Complex(x: real, y: real)
  datatype Matrix = Matrix(a: Complex, b: Complex, c: Complex, d: Complex)
  datatype Element = RealValue(r: real) | ComplexValue(z: Complex) | MatrixValue(m: Matrix)

  function KindOf(e: Element): Kind {
    match e
    case RealValue(_) => RealKind
    case ComplexValue(_) => ComplexKind
    case MatrixValue(_) => MatrixKind
  }

  function ComponentCount(k: Kind): nat {
    match k
    case RealKind => 1
    case ComplexKind => 2
    case MatrixKind => 8
  }

  /** The real components of an element, in memory order (a.x, a.y, b.x, ...). */
  function Components(e: Element): (cs: seq<real>)
    ensures |cs| == ComponentCount(KindOf(e))
  {
    match e
    case RealValue(r) => [r]
    case ComplexValue(z) => [z.x, z.y]
    case MatrixValue(m) => [m.a.x, m.a.y, m.b.x, m.b.y, m.c.x, m.c.y, m.d.x, m.d.y]
  }

  function Zero(k: Kind): (e: Element)
    ensures KindOf(e) == k
    ensures forall j :: 0 <= j < |Components(e)| ==> Components(e)[j] == 0.0
  {
    var z := Complex(0.0, 0.0);
    match k
    case RealKind => RealValue(0.0)
    case ComplexKind => ComplexValue(z)
    case MatrixKind => MatrixValue(Matrix(z, z, z, z))
  }

  function Zeros(k: Kind, n: nat): seq<Element> {
    seq(n, _ => Zero(k))
  }

  function ScaleComplex(z: Complex, s: real): Complex {
    Complex(z.x * s, z.y * s)
  }

  /** Multiplies every real and imaginary component of an element by `s`. */
  function ScaleElement(e: Element, s: real): (r: Element)
    ensures KindOf(r) == KindOf(e)
  {
    match e
    case RealValue(v) => RealValue(v * s)
    case ComplexValue(z) => ComplexValue(ScaleComplex(z, s))
    case MatrixValue(m) =>
      MatrixValue(Matrix(ScaleComplex(m.a, s), ScaleComplex(m.b, s),
                         ScaleComplex(m.c, s), ScaleComplex(m.d, s)))
  }

  /** Scaling multiplies each real and imaginary component by the factor. */
  lemma ScaleElementComponents(e: Element, s: real)
    ensures forall j :: 0 <= j < |Components(e)| ==>
              Components(ScaleElement(e, s))[j] == Components(e)[j] * s
  {
  }

  function AddComplex(p: Complex, q: Complex): Complex {
    Complex(p.x + q.x, p.y + q.y)
  }

  /** Component-wise sum of two elements of the same kind. */
  function AddElement(e1: Element, e2: Element): (r: Element)
    requires KindOf(e1) == KindOf(e2)
    ensures KindOf(r) == KindOf(e1)
    ensures forall j :: 0 <= j < |Components(r)| ==> Components(r)[j] == Components(e1)[j] + Components(e2)[j]
  {
    match (e1, e2)
    case (RealValue(u), RealValue(v)) => RealValue(u + v)
    case (ComplexValue(p), ComplexValue(q)) => ComplexValue(AddComplex(p, q))
    case (MatrixValue(m), MatrixValue(n)) =>
      MatrixValue(Matrix(AddComplex(m.a, n.a), AddComplex(m.b, n.b),
                         AddComplex(m.c, n.c), AddComplex(m.d, n.d)))
  }

  /** Two elements with the same kind and the same components are equal. */
  lemma ElementsEqualByComponents(e1: Element, e2: Element)
    requires KindOf(e1) == KindOf(e2)
    requires Components(e1) == Components(e2)
    ensures e1 == e2
  {
    match e1
    case RealValue(_) =>
    case ComplexValue(_) =>
      assert Components(e1)[0] == Components(e2)[0] && Components(e1)[1] == Components(e2)[1];
    case MatrixValue(_) =>
      assert forall j :: 0 <= j < 8 ==> Components(e1)[j] == Components(e2)[j];
  }

  predicate AllOfKind(es: seq<Element>, k: Kind) {
    forall i :: 0 <= i < |es| ==> KindOf(es[i]) == k
  }

  /** `scale_real` on a whole element sequence. */
  function Scaled(es: seq<Element>, s: real): (r: seq<Element>)
    ensures |r| == |es|
    ensures forall i :: 0 <= i < |es| ==> r[i] == ScaleElement(es[i], s)
  {
    if es == [] then [] else [ScaleElement(es[0], s)] + Scaled(es[1..], s)
  }

  /** `add` on two element sequences of the same length and kinds. */
  function Sum(xs: seq<Element>, ys: seq<Element>): (r: seq<Element>)
    requires |xs| == |ys|
    requires forall i :: 0 <= i < |xs| ==> KindOf(xs[i]) == KindOf(ys[i])
    ensures |r| == |xs|
    ensures forall i :: 0 <= i < |xs| ==> r[i] == AddElement(xs[i], ys[i])
  {
    if xs == [] then [] else [AddElement(xs[0], ys[0])] + Sum(xs[1..], ys[1..])
  }

  lemma ScaleComplexTwice(z: Complex, f: real, g: real)
    ensures ScaleComplex(ScaleComplex(z, f), g) == ScaleComplex(z, f * g)
  {
    assert (z.x * f) * g == z.x * (f * g);
    assert (z.y * f) * g == z.y * (f * g);
  }

  lemma ScaleElementTwice(e: Element, f: real, g: real)
    ensures ScaleElement(ScaleElement(e, f), g) == ScaleElement(e, f * g)
  {
    match e
    case RealValue(v) =>
      assert (v * f) * g == v * (f * g);
    case ComplexValue(z) =>
      ScaleComplexTwice(z, f, g);
    case MatrixValue(m) =>
      ScaleComplexTwice(m.a, f, g);
      ScaleComplexTwice(m.b, f, g);
      ScaleComplexTwice(m.c, f, g);
      ScaleComplexTwice(m.d, f, g);
  }

  /** Scaling by f and then by g is scaling once by f * g. */
  lemma {:induction false} ScaledTwice(es: seq<Element>, f: real, g: real)
    ensures Scaled(Scaled(es, f), g) == Scaled(es, f * g)
  {
    forall i | 0 <= i < |es|
      ensures Scaled(Scaled(es, f), g)[i] == Scaled(es, f * g)[i]
    {
      ScaleElementTwice(es[i], f, g);
    }
  }

  /** Scaling by one leaves every element as it was. */
  lemma {:induction false} ScaledByOne(es: seq<Element>)
    ensures Scaled(es, 1.0) == es
  {
    forall i | 0 <= i < |es|
      ensures Scaled(es, 1.0)[i] == es[i]
    {
      ScaleElementComponents(es[i], 1.0);
      ElementsEqualByComponents(ScaleElement(es[i], 1.0), es[i]);
    }
  }

  lemma AddElementCommutes(e1: Element, e2: Element)
    requires KindOf(e1) == KindOf(e2)
    ensures AddElement(e1, e2) == AddElement(e2, e1)
  {
    ElementsEqualByComponents(AddElement(e1, e2), AddElement(e2, e1));
  }

  /** `add(C, A, B)` and `add(C, B, A)` give the same C. */
  lemma {:induction false} SumCommutes(xs: seq<Element>, ys: seq<Element>)
    requires |xs| == |ys|
    requires forall i :: 0 <= i < |xs| ==> KindOf(xs[i]) == KindOf(ys[i])
    ensures Sum(xs, ys) == Sum(ys, xs)
  {
    forall i | 0 <= i < |xs|
      ensures Sum(xs, ys)[i] == Sum(ys, xs)[i]
    {
      AddElementCommutes(xs[i], ys[i]);
    }
  }

  /** Adding a zero-initialised buffer of the same kind gives the other operand. */
  lemma {:induction false} SumWithZerosIsIdentity(xs: seq<Element>, k: Kind)
    requires AllOfKind(xs, k)
    ensures Sum(xs, Zeros(k, |xs|)) == xs
    ensures Sum(Zeros(k, |xs|), xs) == xs
  {
    var zs := Zeros(k, |xs|);
    forall i | 0 <= i < |xs|
      ensures Sum(xs, zs)[i] == xs[i] && Sum(zs, xs)[i] == xs[i]
    {
      ElementsEqualByComponents(AddElement(xs[i], zs[i]), xs[i]);
      ElementsEqualByComponents(AddElement(zs[i], xs[i]), xs[i]);
    }
  }

  /** The status this model gives `oskar_mem_realloc`: it succeeds on the
      host and on the device, and fails only for an unknown location. */
  function ReallocStatus(location: Location): (s: Status)
    ensures s == Success <==> location == CPU || location == GPU
    ensures s.Error? ==> s == Error(BadLocation)
  {
    match location
    case CPU => Success
    case GPU => Success
    case OtherLocation => Error(BadLocation)
  }

  /** The status this model gives `append`: a type mismatch is reported
      before an unknown location. */
  function AppendStatus(t: MemType, location: Location, srcType: MemType, srcLocation: Location): (s: Status)
    ensures s == Success <==> srcType == t && location != OtherLocation && srcLocation != OtherLocation
    ensures srcType != t ==> s == Error(TypeMismatch)
    ensures srcType == t && s.Error? ==> s == Error(BadLocation)
  {
    if srcType != t then Error(TypeMismatch)
    else if location == OtherLocation || srcLocation == OtherLocation then Error(BadLocation)
    else Success
  }

  /** The status this model gives `scale_real`: an unknown location is
      reported before a non-floating tag. */
  function ScaleStatus(t: MemType, location: Location): (s: Status)
    ensures s == Success <==> location != OtherLocation && t.precision != Integer
    ensures location == OtherLocation ==> s == Error(BadLocation)
    ensures location != OtherLocation && s.Error? ==> s == Error(BadDataType)
  {
    if location == OtherLocation then Error(BadLocation)
    else if t.precision == Integer then Error(BadDataType)
    else Success
  }

  /** The status `oskar_mem_add(C, A, B)` returns.  The lengths are checked
      first, so a length mismatch is reported even when a location is
      also wrong; blocks in different places are a location mismatch, and
      co-located blocks off the host are refused, as the operation is
      host-only. */
  function AddStatus(ta: MemType, tb: MemType, tc: MemType, na: nat, nb: nat, nc: nat,
                     la: Location, lb: Location, lc: Location): Status
  {
    if na != nb || na != nc then Error(DimensionMismatch)
    else if ta != tb || ta != tc then Error(TypeMismatch)
    else if la != lb || la != lc then Error(LocationMismatch)
    else if la != CPU then Error(BadLocation)
    else if ta.precision == Integer then Error(BadDataType)
    else Success
  }

  lemma AddStatusOrder(ta: MemType, tb: MemType, tc: MemType, na: nat, nb: nat, nc: nat,
                       la: Location, lb: Location, lc: Location)
    ensures (na != nb || na != nc) ==> AddStatus(ta, tb, tc, na, nb, nc, la, lb, lc) == Error(DimensionMismatch)
    ensures AddStatus(ta, tb, tc, na, nb, nc, la, lb, lc) == Success <==>
              na == nb == nc && ta == tb == tc && la == lb == lc == CPU && ta.precision != Integer
    ensures (na == nb == nc && ta == tb == tc && !(la == lb == lc)) ==>
              AddStatus(ta, tb, tc, na, nb, nc, la, lb, lc) == Error(LocationMismatch)
    ensures (na == nb == nc && ta == tb == tc && la == lb == lc == GPU) ==>
              AddStatus(ta, tb, tc, na, nb, nc, la, lb, lc) == Error(BadLocation)
  {
  }

  class Mem {
    var memType: MemType
    var location: Location
    var data: array<Element>

    ghost predicate Valid()
      reads this, data
    {
      forall i :: 0 <= i < data.Length ==> KindOf(data[i]) == memType.kind
    }

    function NumElements(): nat
      reads this
    {
      data.Length
    }

    /** The instance forms agree with the static tag forms by construction. */
    predicate IsDouble() reads this { IsDoubleType(memType) }
    predicate IsComplex() reads this { IsComplexType(memType) }
    predicate IsScalar() reads this { IsScalarType(memType) }

    /** `oskar_Mem(type, location, n)`: n zero-initialised elements. */
    constructor (t: MemType, loc: Location, n: nat)
      ensures Valid() && fresh(data)
      ensures memType == t && location == loc
      ensures data[..] == Zeros(t.kind, n)
    {
      memType, location := t, loc;
      data := new Element[n](_ => Zero(t.kind));
    }

    /** `oskar_Mem(&src, location)`: init at `loc`, followed by a copy. */
    constructor CopyOf(src: Mem, loc: Location)
      requires src.Valid()
      ensures Valid() && fresh(data)
      ensures memType == src.memType && location == loc
      ensures data[..] == src.data[..]
    {
      var k := src.memType.kind;
      var n := src.data.Length;
      var d := new Element[n](_ => Zero(k));
      for i := 0 to n
        invariant forall j :: 0 <= j < i ==> d[j] == src.data[j]
        invariant forall j :: 0 <= j < n ==> KindOf(d[j]) == k
      {
        d[i] := src.data[i];
      }
      memType, location, data := src.memType, loc, d;
    }

    /** `oskar_mem_realloc`: the first min(old, n) elements are kept; the
        contents of a new tail are not promised. */
    method Realloc(n: nat) returns (status: Status)
      requires Valid()
      modifies this
      ensures Valid()
      ensures memType == old(memType) && location == old(location)
      ensures status == ReallocStatus(old(location))
      ensures status.Success? ==> fresh(data) && data.Length == n
      ensures status.Success? ==>
                forall i :: 0 <= i < n && i < old(data.Length) ==> data[i] == old(data[i])
      ensures status.Error? ==> data == old(data)
    {
      if location == OtherLocation {
        return Error(BadLocation);
      }
      var k := memType.kind;
      var d := new Element[n](_ => Zero(k));
      var m := if n < data.Length then n else data.Length;
      for i := 0 to m
        modifies d
        invariant forall j :: 0 <= j < i ==> d[j] == data[j]
        invariant forall j :: 0 <= j < n ==> KindOf(d[j]) == k
      {
        d[i] := data[i];
      }
      data := d;
      status := Success;
    }

    /** `append(src, type, location, count)`: grows the block by `count`
        elements copied from `src`; the block keeps its own tags. */
    method Append(src: seq<Element>, srcType: MemType, srcLocation: Location, count: nat)
      returns (status: Status)
      requires Valid()
      requires count <= |src|
      requires forall i :: 0 <= i < count ==> KindOf(src[i]) == srcType.kind
      modifies this
      ensures Valid()
      ensures memType == old(memType) && location == old(location)
      ensures status == AppendStatus(old(memType), old(location), srcType, srcLocation)
      ensures status.Success? ==> data[..] == old(data[..]) + src[..count]
      ensures status.Error? ==> data == old(data)
    {
      if srcType != memType {
        return Error(TypeMismatch);
      }
      if srcLocation == OtherLocation {
        return Error(BadLocation);
      }
      var n := data.Length;
      ghost var before := data[..];
      status := Realloc(n + count);
      if status.Error? {
        return;
      }
      var grown := data;
      for i := 0 to count
        modifies grown
        invariant data.Length == n + count
        invariant forall j :: 0 <= j < n ==> data[j] == before[j]
        invariant forall j :: 0 <= j < i ==> data[n + j] == src[j]
        invariant Valid()
      {
        data[n + i] := src[i];
      }
      assert data[..] == before + src[..count];
    }

    /** `scale_real(s)`: every component of every element times `s`. */
    method ScaleReal(s: real) returns (status: Status)
      requires Valid()
      modifies data
      ensures Valid()
      ensures status == ScaleStatus(memType, location)
      ensures status.Success? ==> data[..] == Scaled(old(data[..]), s)
      ensures status.Error? ==> data[..] == old(data[..])
    {
      status := ScaleStatus(memType, location);
      if status.Error? {
        return;
      }
      for i := 0 to data.Length
        invariant forall j :: 0 <= j < i ==> data[j] == ScaleElement(old(data[j]), s)
        invariant forall j :: i <= j < data.Length ==> data[j] == old(data[j])
        invariant Valid()
      {
        data[i] := ScaleElement(data[i], s);
      }
    }
  }

  /** `oskar_mem_add(C, A, B)`: C[i] = A[i] + B[i].  C may be A or B. */
  method Add(c: Mem, a: Mem, b: Mem) returns (status: Status)
    requires a.Valid() && b.Valid() && c.Valid()
    modifies c.data
    ensures c.Valid()
    ensures status == AddStatus(a.memType, b.memType, c.memType,
                                a.NumElements(), b.NumElements(), c.NumElements(),
                                a.location, b.location, c.location)
    ensures status.Success? ==> c.data[..] == Sum(old(a.data[..]), old(b.data[..]))
    ensures status.Error? ==> c.data[..] == old(c.data[..])
  {
    status := AddStatus(a.memType, b.memType, c.memType,
                        a.data.Length, b.data.Length, c.data.Length,
                        a.location, b.location, c.location);
    if status.Error? {
      return;
    }
    ghost var A, B := a.data[..], b.data[..];
    var n := c.data.Length;
    for i := 0 to n
      invariant forall j :: 0 <= j < i ==> c.data[j] == AddElement(A[j], B[j])
      invariant forall j :: i <= j < n ==> a.data[j] == A[j] && b.data[j] == B[j]
    {
      c.data[i] := AddElement(a.data[i], b.data[i]);
    }
    assert c.data[..] == Sum(A, B);
  }
}
