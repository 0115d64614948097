/** The use cases of the `oskar_Mem` unit test, each written as a method
    whose postcondition is what the test asserts.  The floating tolerances of
    the test become exact equalities over `real`. */
module MemScenarios {
  import opened Status
  import opened MemBuffer

  /** Writes `values` into the first elements of `m`, as the test's fill loops do. */
  method Fill(m: Mem, values: seq<Element>)
    requires m.Valid() && |values| == m.data.Length
    requires AllOfKind(values, m.memType.kind)
    modifies m.data
    ensures m.Valid() && m.data[..] == values
  {
    for i := 0 to |values|
      invariant m.Valid()
      invariant forall j :: 0 <= j < i ==> m.data[j] == values[j]
    {
      m.data[i] := values[i];
    }
    assert m.data[..] == values;
  }

  /** The instance forms `mem.is_double()`, `mem.is_complex()` and
      `mem.is_scalar()` of a new block agree with the tag forms. */
  method TestTypeCheck(t: MemType) returns (isDouble: bool, isComplex: bool, isScalar: bool)
    ensures isDouble == IsDoubleType(t) && isComplex == IsComplexType(t) && isScalar == IsScalarType(t)
  {
    var mem := new Mem(t, CPU, 0);
    isDouble, isComplex, isScalar := mem.IsDouble(), mem.IsComplex(), mem.IsScalar();
  }

  /** Reallocating from zero or from a non-zero length sets the length and keeps the type. */
  method TestRealloc() returns (e1: Status, n1: nat, t1: MemType, e2: Status, n2: nat, t2: MemType)
    ensures e1 == Success && n1 == 500 && t1 == DOUBLE
    ensures e2 == Success && n2 == 1000 && t2 == DOUBLE_COMPLEX
  {
    var memGpu := new Mem(DOUBLE, GPU, 0);
    e1 := memGpu.Realloc(500);
    n1, t1 := memGpu.NumElements(), memGpu.memType;
    var memCpu := new Mem(DOUBLE_COMPLEX, CPU, 100);
    e2 := memCpu.Realloc(1000);
    n2, t2 := memCpu.NumElements(), memCpu.memType;
  }

  /** Two appends into a host block: after each, the length, the tags and
      the contents are checked; lengths add up and the prefix is kept. */
  method TestAppendCpu() returns (n1: nat, loc1: Location, t1: MemType, contents1: seq<Element>,
                                  n2: nat, loc: Location, t: MemType, contents: seq<Element>)
    ensures n1 == 10 && loc1 == CPU && t1 == DOUBLE
    ensures contents1 == seq(10, _ => RealValue(1.0))
    ensures n2 == 15 && loc == CPU && t == DOUBLE
    ensures |contents| == 15
    ensures forall i :: 0 <= i < 15 ==> contents[i] == if i < 10 then RealValue(1.0) else RealValue(2.0)
  {
    var mem := new Mem(DOUBLE, CPU, 0);
    var data1 := seq(10, _ => RealValue(1.0));
    var e := mem.Append(data1, DOUBLE, CPU, 10);
    n1, loc1, t1, contents1 := mem.NumElements(), mem.location, mem.memType, mem.data[..];
    assert data1[..10] == data1;
    var data2 := seq(5, _ => RealValue(2.0));
    e := mem.Append(data2, DOUBLE, CPU, 5);
    n2, loc, t := mem.NumElements(), mem.location, mem.memType;
    contents := mem.data[..];
  }

  /** Host data appended into a device block keeps it on the device, and a
      copy of it back to the host holds the appended values, after the
      first append and after the second. */
  method TestAppendGpu() returns (e1: Status, n1: nat, loc1: Location, t1: MemType, copied1: seq<Element>,
                                  e2: Status, n: nat, loc: Location, t: MemType, copied: seq<Element>)
    ensures e1 == Success && n1 == 10 && loc1 == GPU && t1 == SINGLE
    ensures copied1 == seq(10, _ => RealValue(1.0))
    ensures e2 == Success && n == 15 && loc == GPU && t == SINGLE
    ensures copied == seq(10, _ => RealValue(1.0)) + seq(5, _ => RealValue(2.0))
  {
    var memGpu := new Mem(SINGLE, GPU, 0);
    var data1 := seq(10, _ => RealValue(1.0));
    e1 := memGpu.Append(data1, SINGLE, CPU, 10);
    n1, loc1, t1 := memGpu.NumElements(), memGpu.location, memGpu.memType;
    var memTemp1 := new Mem.CopyOf(memGpu, CPU);
    copied1 := memTemp1.data[..];
    assert data1[..10] == data1;
    var data2 := seq(5, _ => RealValue(2.0));
    e2 := memGpu.Append(data2, SINGLE, CPU, 5);
    n, loc, t := memGpu.NumElements(), memGpu.location, memGpu.memType;
    var memTemp := new Mem.CopyOf(memGpu, CPU);
    copied := memTemp.data[..];
    assert data1[..10] == data1 && data2[..5] == data2;
  }

  /** Scale by 2 on the host, copy to the device, scale by 2 again and copy
      back: every component is twice the original after the first scaling
      and four times it at the end. */
  method TestScaleReal(t: MemType, values: seq<Element>) returns (once: seq<Element>, scaled: seq<Element>)
    requires t.precision != Integer
    requires AllOfKind(values, t.kind)
    ensures once == Scaled(values, 2.0)
    ensures scaled == Scaled(values, 4.0)
  {
    var memCpu := new Mem(t, CPU, |values|);
    Fill(memCpu, values);
    var e := memCpu.ScaleReal(2.0);
    assert e == Success;
    once := memCpu.data[..];
    var memGpu := new Mem.CopyOf(memCpu, GPU);
    assert memGpu.data[..] == once;
    e := memGpu.ScaleReal(2.0);
    assert e == Success;
    assert memGpu.data[..] == Scaled(once, 2.0);
    var memCpu2 := new Mem.CopyOf(memGpu, CPU);
    scaled := memCpu2.data[..];
    ScaledTwice(values, 2.0, 2.0);
  }

  /** Two host matrix blocks added into a third. */
  method TestAdd(valuesA: seq<Element>, valuesB: seq<Element>) returns (e: Status, c: seq<Element>)
    requires |valuesA| == |valuesB|
    requires AllOfKind(valuesA, MatrixKind) && AllOfKind(valuesB, MatrixKind)
    ensures e == Success && c == Sum(valuesA, valuesB)
  {
    var n := |valuesA|;
    var memA := new Mem(SINGLE_COMPLEX_MATRIX, CPU, n);
    var memB := new Mem(SINGLE_COMPLEX_MATRIX, CPU, n);
    Fill(memA, valuesA);
    Fill(memB, valuesB);
    var memC := new Mem(SINGLE_COMPLEX_MATRIX, CPU, n);
    e := Add(memC, memA, memB);
    c := memC.data[..];
  }

  /** In-place `add(B, A, B)` into a freshly allocated, zeroed B gives B == A. */
  method TestAddInPlace(valuesA: seq<Element>) returns (b0: seq<Element>, e: Status, b: seq<Element>)
    requires AllOfKind(valuesA, MatrixKind)
    ensures |b0| == |valuesA|
    ensures forall i, j :: 0 <= i < |b0| && 0 <= j < |Components(b0[i])| ==> Components(b0[i])[j] == 0.0
    ensures e == Success && b == valuesA
  {
    var n := |valuesA|;
    var memA := new Mem(SINGLE_COMPLEX_MATRIX, CPU, n);
    var memB := new Mem(SINGLE_COMPLEX_MATRIX, CPU, n);
    b0 := memB.data[..];
    Fill(memA, valuesA);
    e := Add(memB, memA, memB);
    b := memB.data[..];
    SumWithZerosIsIdentity(valuesA, MatrixKind);
  }

  /** Blocks on the device are refused by `add`. */
  method TestAddOnGpu() returns (e: Status)
    ensures e == Error(BadLocation)
  {
    var memA := new Mem(SINGLE_COMPLEX_MATRIX, GPU, 10);
    var memB := new Mem(SINGLE_COMPLEX_MATRIX, GPU, 10);
    var memC := new Mem(SINGLE_COMPLEX_MATRIX, GPU, 10);
    e := Add(memC, memA, memB);
  }

  /** A length mismatch is reported even though C is also on the device. */
  method TestAddDimensionMismatch() returns (e: Status)
    ensures e == Error(DimensionMismatch)
  {
    var memA := new Mem(SINGLE_COMPLEX_MATRIX, CPU, 10);
    var memB := new Mem(SINGLE_COMPLEX_MATRIX, CPU, 10);
    var memC := new Mem(SINGLE_COMPLEX_MATRIX, GPU, 5);
    e := Add(memC, memA, memB);
  }
}
