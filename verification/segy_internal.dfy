/**
 * The layout arithmetic of the SEG-Y reader's internals
 * (vtkSegYReaderInternal): the coordinate-scalar decoding of SEG-Y rev 1,
 * the position of the first trace, the vertical coordinate reference flag,
 * and the re-indexing of trace samples into image and grid scalars.  Each
 * trace is the sequence of its samples.
 */
module SegYReaderInternal {
  import Arith
  import opened Wrappers

  /** Bytes of the textual file header and of the binary file header (SEG-Y rev 1, section 3). */
  const TextualHeaderBytes := 3200
  const BinaryHeaderBytes := 400

  /** The byte offset of the first trace header in the file. */
  function FirstTraceStartPos(): (r: nat)
    ensures r == TextualHeaderBytes + BinaryHeaderBytes
  {
    3600
  }

  /** A 16-bit signed integer, the width of the trace header's coordinate scalar. */
  predicate IsShort(m: int) {
    -32768 <= m < 32768
  }

  /**
   * The coordinate scalar of a trace header (SEG-Y rev 1, section 4): a
   * positive value multiplies, a negative value divides by its magnitude,
   * and 0 is taken as 1.  Modelled over the reals.
   */
  function DecodeMultiplier(m: int): (r: real)
    requires IsShort(m)
    ensures r > 0.0
    ensures m > 0 ==> r == m as real
    ensures m < 0 ==> r * ((-m) as real) == 1.0
    ensures m == 0 ==> r == 1.0
  {
    if m < 0 then -1.0 / (m as real)
    else if m > 0 then m as real
    else 1.0
  }

  /** A raw coordinate scaled by the trace header's coordinate scalar. */
  function ScaledCoordinate(raw: int, m: int): (r: real)
    requires IsShort(m)
    ensures m > 0 ==> r == (raw * m) as real
    ensures m == 0 ==> r == raw as real
    ensures m < 0 ==> r == (raw as real) / ((-m) as real)
  {
    (raw as real) * DecodeMultiplier(m)
  }

  /** A negative scalar divides: scaling by it and multiplying back by its magnitude gives the raw value. */
  lemma NegativeScalarDivides(raw: int, m: int)
    requires IsShort(m) && m < 0
    ensures ScaledCoordinate(raw, m) * ((-m) as real) == raw as real
  {
    calc {
      ScaledCoordinate(raw, m) * ((-m) as real);
      (raw as real) * (DecodeMultiplier(m) * ((-m) as real));
      (raw as real) * 1.0;
    }
  }

  /** `SetVerticalCRS(v)`: any positive value is stored as 1, anything else as 0. */
  function SetVerticalCRS(v: int): (r: int)
    ensures r == 0 || r == 1
    ensures r == 1 <==> v > 0
  {
    if v > 0 then 1 else 0
  }

  /**
   * The sign of the z step in a 2-D export: with reference 0 (heights) z
   * decreases as the sample index grows (-1); with any other reference
   * (depths, stored as 1) it increases (+1).
   */
  function VerticalSign(verticalCRS: int): (r: int)
    ensures r == -1 || r == 1
    ensures r == -1 <==> verticalCRS == 0
  {
    if verticalCRS == 0 then -1 else 1
  }

  /** After `SetVerticalCRS(v)`, z increases with the sample index exactly when `v` is positive (depths). */
  lemma VerticalSignAfterSet(v: int)
    ensures VerticalSign(SetVerticalCRS(v)) == (if v > 0 then 1 else -1)
  {
  }

  /** Every trace holds at least `samples` samples. */
  predicate Covers<T>(traces: seq<seq<T>>, samples: nat) {
    forall i :: 0 <= i < |traces| ==> |traces[i]| >= samples
  }

  /**
   * Sample `v / n` of trace `v % n`: the value at flat position `v` when the
   * samples of `n` traces are laid out sample-major (all traces' first
   * sample, then all traces' second sample, and so on).
   */
  function SampleMajor<T>(traces: seq<seq<T>>, n: nat, samples: nat, v: nat): T
    requires 0 < n <= |traces| && Covers(traces, samples) && v < samples * n
  {
    Arith.DivBound(v, n, samples);
    traces[v % n][v / n]
  }

  /** A single-component scalar array as the reader attaches it to its output. */
  datatype Scalars<T> = Scalars(name: string, numComponents: nat, values: seq<T>)

  /**
   * `ExportData3D`: the image has dimensions (d0, d1, d2) with d2 the sample
   * count per trace, and its scalars hold d0*d1*d2 single-component values;
   * trace j*d0 + i supplies column (i, j).
   */
  function ExportData3D<T>(traces: seq<seq<T>>, samples: nat, d0: nat, d1: nat, d2: nat): (r: Scalars<T>)
    requires d2 == samples && d0 * d1 <= |traces| && Covers(traces, samples)
    ensures r.name == "trace" && r.numComponents == 1
    ensures |r.values| == d0 * d1 * d2
  {
    var n := d0 * d1;
    if n == 0 then Scalars("trace", 1, [])
    else Scalars("trace", 1, seq(n * d2, v requires 0 <= v < n * d2 => SampleMajor(traces, n, samples, v)))
  }

  /** The value at k*d1*d0 + j*d0 + i of the exported image is sample k of trace j*d0 + i. */
  lemma ExportData3DIndex<T>(traces: seq<seq<T>>, samples: nat, d0: nat, d1: nat, d2: nat, i: nat, j: nat, k: nat)
    requires d2 == samples && d0 * d1 <= |traces| && Covers(traces, samples)
    requires i < d0 && j < d1 && k < d2
    ensures k * d1 * d0 + j * d0 + i < |ExportData3D(traces, samples, d0, d1, d2).values|
    ensures j * d0 + i < |traces|
    ensures ExportData3D(traces, samples, d0, d1, d2).values[k * d1 * d0 + j * d0 + i] == traces[j * d0 + i][k]
  {
    var n := d0 * d1;
    Arith.RowMajorBound(j, i, d0, d1);
    assert d1 * d0 == n;
    var c := j * d0 + i;
    assert k * d1 * d0 == k * n;
    Arith.RowMajorBound(k, c, n, d2);
    Arith.DivModOfRowMajor(k, c, n);
  }

  /** `values` lists the traces' samples sample-major: position `v` holds sample `v / n` of trace `v % n`. */
  ghost predicate SampleMajorLayout<T>(values: seq<T>, traces: seq<seq<T>>) {
    forall v :: 0 <= v < |values| ==>
      && 0 < |traces|
      && v / |traces| < |traces[v % |traces|]|
      && values[v] == traces[v % |traces|][v / |traces|]
  }

  /** In a sample-major layout of `samples` samples, position k*n + i holds sample k of trace i. */
  lemma SampleMajorIndex<T>(values: seq<T>, traces: seq<seq<T>>, samples: nat, k: nat, i: nat)
    requires SampleMajorLayout(values, traces) && |values| == |traces| * samples && Covers(traces, samples)
    requires k < samples && i < |traces|
    ensures k * |traces| + i < |values| && values[k * |traces| + i] == traces[i][k]
  {
    Arith.RowMajorBound(k, i, |traces|, samples);
    Arith.DivModOfRowMajor(k, i, |traces|);
  }

  /** Appending sample k of trace i at position k*n + i extends a sample-major layout. */
  lemma SampleMajorAppend<T>(values: seq<T>, traces: seq<seq<T>>, k: nat, i: nat)
    requires SampleMajorLayout(values, traces)
    requires i < |traces| && k < |traces[i]| && |values| == k * |traces| + i
    ensures SampleMajorLayout(values + [traces[i][k]], traces)
  {
    Arith.DivModOfRowMajor(k, i, |traces|);
    var w := values + [traces[i][k]];
    forall v | 0 <= v < |w|
      ensures 0 < |traces| && v / |traces| < |traces[v % |traces|]| && w[v] == traces[v % |traces|][v / |traces|]
    {
      if v < |values| {
        assert w[v] == values[v];
      }
    }
  }

  /** Position `k * |traces| + i` of `values` exists and holds sample `k` of trace `i`. */
  ghost predicate SampleAt<T>(values: seq<T>, traces: seq<seq<T>>, k: nat, i: nat)
    requires i < |traces| && k < |traces[i]|
  {
    k * |traces| + i < |values| && values[k * |traces| + i] == traces[i][k]
  }

  /** Every position of a sample-major layout of `samples` full rows names its (sample, trace) pair. */
  lemma SampleMajorAll<T>(values: seq<T>, traces: seq<seq<T>>, samples: nat)
    requires SampleMajorLayout(values, traces) && |values| == |traces| * samples && Covers(traces, samples)
    ensures forall k, i :: 0 <= k < samples && 0 <= i < |traces| ==> SampleAt(values, traces, k, i)
  {
    forall k, i | 0 <= k < samples && 0 <= i < |traces|
      ensures SampleAt(values, traces, k, i)
    {
      SampleMajorIndex(values, traces, samples, k, i);
    }
  }

  /** The inner loop of `AddScalars`: sample `k` of every trace, in trace order. */
  method AppendSampleRow<T>(values: seq<T>, traces: seq<seq<T>>, k: nat) returns (w: seq<T>)
    requires SampleMajorLayout(values, traces) && |values| == k * |traces|
    requires forall i :: 0 <= i < |traces| ==> k < |traces[i]|
    ensures SampleMajorLayout(w, traces) && |w| == k * |traces| + |traces|
  {
    w := values;
    var i := 0;
    while i < |traces|
      invariant 0 <= i <= |traces|
      invariant |w| == k * |traces| + i
      invariant SampleMajorLayout(w, traces)
    {
      SampleMajorAppend(w, traces, k, i);
      w := w + [traces[i][k]];
      i := i + 1;
    }
  }

  /**
   * `AddScalars`: the samples of all traces appended sample-major, one
   * value per trace for each sample index.
   */
  method AddScalars<T>(traces: seq<seq<T>>, samples: nat) returns (r: Scalars<T>)
    requires Covers(traces, samples)
    ensures r.name == "trace" && r.numComponents == 1
    ensures |r.values| == |traces| * samples
    ensures SampleMajorLayout(r.values, traces)
    ensures forall k, i :: 0 <= k < samples && 0 <= i < |traces| ==> SampleAt(r.values, traces, k, i)
  {
    var n := |traces|;
    var values: seq<T> := [];
    var k := 0;
    while k < samples
      invariant 0 <= k <= samples
      invariant |values| == k * n
      invariant SampleMajorLayout(values, traces)
    {
      values := AppendSampleRow(values, traces, k);
      Arith.MulSucc(k, n);
      k := k + 1;
    }
    assert |values| == n * samples;
    SampleMajorAll(values, traces, samples);
    r := Scalars("trace", 1, values);
  }

  /** A structured grid as the 2-D export fills it: dimensions, the vertical step of each point, and the scalars. */
  datatype Grid<T> = Grid(dims: (nat, nat, nat), verticalSteps: seq<int>, scalars: Scalars<T>)

  /**
   * `ExportData2D`: nothing happens without a grid.  Otherwise the grid is
   * |traces| by 1 by the sample count; the points run sample-major like the
   * scalars, and the point of sample k lies `sign * k` sample intervals along
   * the vertical axis.
   */
  method ExportData2D<T>(hasGrid: bool, traces: seq<seq<T>>, samples: nat, verticalCRS: int) returns (r: Option<Grid<T>>)
    requires Covers(traces, samples)
    ensures !hasGrid <==> r.None?
    ensures r.Some? ==> r.value.dims == (|traces|, 1, samples)
    ensures r.Some? ==> |r.value.verticalSteps| == |traces| * samples == |r.value.scalars.values|
    ensures r.Some? ==> forall v :: 0 <= v < |r.value.verticalSteps| ==>
      r.value.verticalSteps[v] == VerticalSign(verticalCRS) * (v / |traces|)
    ensures r.Some? ==> SampleMajorLayout(r.value.scalars.values, traces)
  {
    if !hasGrid {
      return None;
    }
    var n := |traces|;
    var sign := VerticalSign(verticalCRS);
    var steps: seq<int> := [];
    if n > 0 {
      steps := seq(n * samples, v requires 0 <= v < n * samples => sign * (v / n));
    }
    var scalars := AddScalars(traces, samples);
    r := Some(Grid((n, 1, samples), steps, scalars));
  }

  /** In the 2-D export, the point of sample k of trace i lies `sign * k` sample intervals along the vertical axis. */
  lemma ExportData2DVerticalStep(steps: seq<int>, n: nat, samples: nat, sign: int, k: nat, i: nat)
    requires 0 < n && |steps| == n * samples
    requires forall v :: 0 <= v < |steps| ==> steps[v] == sign * (v / n)
    requires k < samples && i < n
    ensures k * n + i < |steps| && steps[k * n + i] == sign * k
  {
    Arith.RowMajorBound(k, i, n, samples);
    Arith.DivModOfRowMajor(k, i, n);
  }
}
