/**
 * The structure-of-arrays data array (vtkSoADataArrayTemplate): one contiguous
 * buffer per component, all buffers holding one entry per tuple.  A flat value
 * index addresses the array tuple-major, component-minor.
 */
module SoAArray {
  import opened Wrappers
  import Arith

  /** One component's storage; `borrowed` records memory handed in by `SetArray` with `save` set. */
  datatype Buffer<T> = Buffer(elems: seq<T>, borrowed: bool)

  datatype Error = ComponentOutOfRange | NotResizeable

  datatype SoAArray<T> = SoAArray(data: seq<Buffer<T>>, numTuples: nat, resizeable: bool) {

    function NumberOfComponents(): nat { |data| }

    /** Every component buffer holds exactly one entry per tuple. */
    predicate Valid() {
      forall c :: 0 <= c < |data| ==> |data[c].elems| == numTuples
    }
  }

  /** A freshly constructed array: no components, no tuples, resizeable. */
  function New<T>(): (a: SoAArray<T>)
    ensures a.Valid() && a.NumberOfComponents() == 0 && a.numTuples == 0 && a.resizeable
  {
    SoAArray([], 0, true)
  }

  /** Component `comp` of tuple `t`, read from buffer `comp`. */
  function GetComponentValue<T>(a: SoAArray<T>, t: nat, comp: nat): (r: T)
    requires a.Valid() && t < a.numTuples && comp < a.NumberOfComponents()
    ensures r == a.data[comp].elems[t]
  {
    a.data[comp].elems[t]
  }

  /** Writes one component of one tuple; every other (tuple, component) reads as before. */
  function SetComponentValue<T>(a: SoAArray<T>, t: nat, comp: nat, x: T): (r: SoAArray<T>)
    requires a.Valid() && t < a.numTuples && comp < a.NumberOfComponents()
    ensures r.Valid() && r.numTuples == a.numTuples && r.NumberOfComponents() == a.NumberOfComponents()
    ensures r.resizeable == a.resizeable
    ensures GetComponentValue(r, t, comp) == x
    ensures forall t', c' :: 0 <= t' < a.numTuples && 0 <= c' < a.NumberOfComponents() && (t' != t || c' != comp) ==>
      GetComponentValue(r, t', c') == GetComponentValue(a, t', c')
  {
    var b := a.data[comp];
    a.(data := a.data[comp := b.(elems := b.elems[t := x])])
  }

  /** Copies tuple `t` out of the array, one value per component buffer, in component order. */
  method GetTupleValue<T>(a: SoAArray<T>, t: nat) returns (tuple: seq<T>)
    requires a.Valid() && t < a.numTuples
    ensures |tuple| == a.NumberOfComponents()
    ensures forall cc :: 0 <= cc < |tuple| ==> tuple[cc] == GetComponentValue(a, t, cc)
  {
    tuple := [];
    var cc := 0;
    while cc < a.NumberOfComponents()
      invariant 0 <= cc <= a.NumberOfComponents()
      invariant |tuple| == cc
      invariant forall j :: 0 <= j < cc ==> tuple[j] == a.data[j].elems[t]
    {
      tuple := tuple + [a.data[cc].elems[t]];
      cc := cc + 1;
    }
  }

  /** Writes the first `NumberOfComponents` values of `tuple` into tuple `t`; other tuples are untouched. */
  method SetTupleValue<T>(a: SoAArray<T>, t: nat, tuple: seq<T>) returns (r: SoAArray<T>)
    requires a.Valid() && t < a.numTuples && |tuple| >= a.NumberOfComponents()
    ensures r.Valid() && r.numTuples == a.numTuples && r.NumberOfComponents() == a.NumberOfComponents()
    ensures r.resizeable == a.resizeable
    ensures forall cc :: 0 <= cc < a.NumberOfComponents() ==> GetComponentValue(r, t, cc) == tuple[cc]
    ensures forall t', cc :: 0 <= t' < a.numTuples && t' != t && 0 <= cc < a.NumberOfComponents() ==>
      GetComponentValue(r, t', cc) == GetComponentValue(a, t', cc)
  {
    r := a;
    var cc := 0;
    while cc < a.NumberOfComponents()
      invariant 0 <= cc <= a.NumberOfComponents()
      invariant r.Valid() && r.numTuples == a.numTuples && r.NumberOfComponents() == a.NumberOfComponents()
      invariant r.resizeable == a.resizeable
      invariant forall j :: 0 <= j < cc ==> r.data[j].elems[t] == tuple[j]
      invariant forall j :: cc <= j < a.NumberOfComponents() ==> r.data[j] == a.data[j]
      invariant forall t', j :: 0 <= t' < a.numTuples && t' != t && 0 <= j < a.NumberOfComponents() ==>
        r.data[j].elems[t'] == a.data[j].elems[t']
    {
      r := SetComponentValue(r, t, cc, tuple[cc]);
      cc := cc + 1;
    }
  }

  /** Writing a tuple and reading it back yields the values written, one per component. */
  method SetThenGetTuple<T>(a: SoAArray<T>, t: nat, tuple: seq<T>) returns (readBack: seq<T>)
    requires a.Valid() && t < a.numTuples && |tuple| == a.NumberOfComponents()
    ensures readBack == tuple
  {
    var r := SetTupleValue(a, t, tuple);
    readBack := GetTupleValue(r, t);
  }

  /**
   * Splits a flat value index into its tuple and component.  The source computes
   * the tuple with a cached floating-point reciprocal of the component count;
   * the model states the exact integer split that reciprocal is meant to produce.
   */
  function TupleIndexFromValueIndex(valueIdx: nat, numComps: nat): (r: (nat, nat))
    requires numComps > 0
    ensures r.0 * numComps + r.1 == valueIdx && r.1 < numComps
  {
    (valueIdx / numComps, valueIdx % numComps)
  }

  /** The value at a flat index, through the (tuple, component) split. */
  function GetValue<T>(a: SoAArray<T>, valueIdx: nat): (r: T)
    requires a.Valid() && a.NumberOfComponents() > 0
    requires valueIdx < a.numTuples * a.NumberOfComponents()
    ensures valueIdx / a.NumberOfComponents() < a.numTuples
    ensures r == a.data[valueIdx % a.NumberOfComponents()].elems[valueIdx / a.NumberOfComponents()]
  {
    var k := a.NumberOfComponents();
    var split := TupleIndexFromValueIndex(valueIdx, k);
    Arith.DivModOfRowMajor(split.0, split.1, k);
    Arith.DivBound(valueIdx, k, a.numTuples);
    GetComponentValue(a, split.0, split.1)
  }

  /** Writes the value at a flat index, through the (tuple, component) split. */
  function SetValue<T>(a: SoAArray<T>, valueIdx: nat, x: T): (r: SoAArray<T>)
    requires a.Valid() && a.NumberOfComponents() > 0
    requires valueIdx < a.numTuples * a.NumberOfComponents()
    ensures r.Valid() && r.numTuples == a.numTuples && r.NumberOfComponents() == a.NumberOfComponents()
  {
    var (t, comp) := TupleIndexFromValueIndex(valueIdx, a.NumberOfComponents());
    Arith.DivBound(valueIdx, a.NumberOfComponents(), a.numTuples);
    SetComponentValue(a, t, comp, x)
  }

  /** Flat indexing is tuple-major: value `t*k + c` is component `c` of tuple `t`. */
  lemma FlatIndexIsTupleMajor<T>(a: SoAArray<T>, t: nat, comp: nat)
    requires a.Valid() && t < a.numTuples && comp < a.NumberOfComponents()
    ensures t * a.NumberOfComponents() + comp < a.numTuples * a.NumberOfComponents()
    ensures GetValue(a, t * a.NumberOfComponents() + comp) == GetComponentValue(a, t, comp)
  {
    var k := a.NumberOfComponents();
    Arith.RowMajorBound(t, comp, k, a.numTuples);
    Arith.DivModOfRowMajor(t, comp, k);
  }

  /** `SetValue` then `GetValue` at the same flat index returns the value written; every other flat index is unchanged. */
  lemma SetValueThenGetValue<T>(a: SoAArray<T>, v: nat, x: T)
    requires a.Valid() && a.NumberOfComponents() > 0
    requires v < a.numTuples * a.NumberOfComponents()
    ensures GetValue(SetValue(a, v, x), v) == x
    ensures forall w :: 0 <= w < a.numTuples * a.NumberOfComponents() && w != v ==>
      GetValue(SetValue(a, v, x), w) == GetValue(a, w)
  {
    var k := a.NumberOfComponents();
    forall w | 0 <= w < a.numTuples * k && w != v
      ensures GetValue(SetValue(a, v, x), w) == GetValue(a, w)
    {
      var (tv, cv) := TupleIndexFromValueIndex(v, k);
      var (tw, cw) := TupleIndexFromValueIndex(w, k);
      assert tw != tv || cw != cv;
      Arith.DivBound(w, k, a.numTuples);
    }
  }

  /**
   * Binds caller-supplied memory as the storage of one component.  An
   * out-of-range component is refused; otherwise only that component's buffer
   * changes, and `save` marks the memory as borrowed.
   */
  function SetArray<T>(a: SoAArray<T>, comp: int, buffer: seq<T>, save: bool): (r: Result<SoAArray<T>, Error>)
    ensures r.Success? <==> 0 <= comp < a.NumberOfComponents()
    ensures r.Failure? ==> r.error == ComponentOutOfRange
    ensures r.Success? ==>
      && r.value.NumberOfComponents() == a.NumberOfComponents()
      && r.value.data[comp] == Buffer(buffer, save)
      && (forall c :: 0 <= c < a.NumberOfComponents() && c != comp ==> r.value.data[c] == a.data[c])
      && r.value.numTuples == a.numTuples && r.value.resizeable == a.resizeable
    ensures r.Success? && a.Valid() && |buffer| == a.numTuples ==> r.value.Valid()
  {
    if 0 <= comp < a.NumberOfComponents() then
      Success(a.(data := a.data[comp := Buffer(buffer, save)]))
    else
      Failure(ComponentOutOfRange)
  }

  /** `n` copies of `zero`, the value a freshly allocated entry reads as. */
  function Filled<T>(n: nat, zero: T): (s: seq<T>)
    ensures |s| == n && forall i :: 0 <= i < n ==> s[i] == zero
  {
    seq(n, _ => zero)
  }

  /** `s` cut or zero-extended to length `n`: the common prefix is kept. */
  function Resized<T>(s: seq<T>, n: nat, zero: T): (r: seq<T>)
    ensures |r| == n
    ensures forall i :: 0 <= i < n && i < |s| ==> r[i] == s[i]
    ensures forall i :: |s| <= i < n ==> r[i] == zero
  {
    if n <= |s| then s[..n] else s + Filled(n - |s|, zero)
  }

  /**
   * Changes the number of component buffers: existing components keep their
   * contents, added components are zero-filled to the current tuple count.
   */
  function SetNumberOfComponents<T>(a: SoAArray<T>, k: nat, zero: T): (r: SoAArray<T>)
    requires a.Valid()
    ensures r.Valid() && r.NumberOfComponents() == k && r.numTuples == a.numTuples
    ensures r.resizeable == a.resizeable
    ensures forall c :: 0 <= c < k && c < a.NumberOfComponents() ==> r.data[c] == a.data[c]
    ensures forall c, t :: a.NumberOfComponents() <= c < k && 0 <= t < a.numTuples ==> r.data[c].elems[t] == zero
  {
    var kept := if k <= |a.data| then a.data[..k] else a.data;
    var added := seq(k - |kept|, _ => Buffer(Filled(a.numTuples, zero), false));
    a.(data := kept + added)
  }

  /**
   * Resizes every component buffer to `n` tuples, keeping the common prefix.
   * When the array is not resizeable, growing fails and shrinking has no effect.
   * A resized buffer is a fresh owned allocation, so borrowed memory is forgotten.
   */
  function ReallocateTuples<T>(a: SoAArray<T>, n: nat, zero: T): (r: Result<SoAArray<T>, Error>)
    requires a.Valid()
    ensures !a.resizeable && n > a.numTuples ==> r == Failure(NotResizeable)
    ensures !a.resizeable && n <= a.numTuples ==> r == Success(a)
    ensures a.resizeable ==> r.Success?
    ensures a.resizeable ==>
      && r.value.Valid() && r.value.numTuples == n && r.value.NumberOfComponents() == a.NumberOfComponents()
      && (forall c :: 0 <= c < a.NumberOfComponents() ==> !r.value.data[c].borrowed)
      && (forall c, t :: 0 <= c < a.NumberOfComponents() && 0 <= t < n && t < a.numTuples ==>
            GetComponentValue(r.value, t, c) == GetComponentValue(a, t, c))
      && (forall c, t :: 0 <= c < a.NumberOfComponents() && a.numTuples <= t < n ==>
            GetComponentValue(r.value, t, c) == zero)
  {
    if !a.resizeable then
      if n > a.numTuples then Failure(NotResizeable) else Success(a)
    else
      Success(a.(data := seq(|a.data|, c requires 0 <= c < |a.data| => Buffer(Resized(a.data[c].elems, n, zero), false)),
                 numTuples := n))
  }

  /**
   * Allocates `n` fresh zero-valued tuples in every component buffer, dropping
   * the previous contents.  When the array is not resizeable, growing fails
   * and shrinking has no effect.
   */
  function AllocateTuples<T>(a: SoAArray<T>, n: nat, zero: T): (r: Result<SoAArray<T>, Error>)
    requires a.Valid()
    ensures !a.resizeable && n > a.numTuples ==> r == Failure(NotResizeable)
    ensures !a.resizeable && n <= a.numTuples ==> r == Success(a)
    ensures a.resizeable ==> r.Success?
    ensures a.resizeable ==>
      && r.value.Valid() && r.value.numTuples == n && r.value.NumberOfComponents() == a.NumberOfComponents()
      && (forall c, t :: 0 <= c < a.NumberOfComponents() && 0 <= t < n ==> GetComponentValue(r.value, t, c) == zero)
  {
    if !a.resizeable then
      if n > a.numTuples then Failure(NotResizeable) else Success(a)
    else
      Success(a.(data := seq(|a.data|, _ => Buffer(Filled(n, zero), false)), numTuples := n))
  }
}
