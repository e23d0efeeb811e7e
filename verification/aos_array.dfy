/**
 * The interleaved (array-of-structures) baseline layout: all components of a
 * tuple are adjacent and tuples follow one another.  The periodic view reads
 * from such an array, and the layout-agnostic helpers accept it beside the
 * columnar layout.
 */
module AoSArray {
  import Arith

  datatype AoSArray<T> = AoSArray(values: seq<T>, numTuples: nat, numComponents: nat) {
    /** The buffer holds exactly `numTuples * numComponents` values. */
    predicate Valid() { |values| == numTuples * numComponents }
  }

  /** Component `comp` of tuple `t` sits at position `t*k + comp` of the interleaved buffer. */
  function GetComponent<T>(a: AoSArray<T>, t: nat, comp: nat): T
    requires a.Valid() && t < a.numTuples && comp < a.numComponents
  {
    Arith.RowMajorBound(t, comp, a.numComponents, a.numTuples);
    a.values[t * a.numComponents + comp]
  }

  /** Tuple `t` as one contiguous slice, component by component. */
  function GetTypedTuple<T>(a: AoSArray<T>, t: nat): (r: seq<T>)
    requires a.Valid() && t < a.numTuples
    ensures |r| == a.numComponents
    ensures forall c :: 0 <= c < a.numComponents ==> r[c] == GetComponent(a, t, c)
  {
    Arith.MulMonotone(t + 1, a.numTuples, a.numComponents);
    a.values[t * a.numComponents .. t * a.numComponents + a.numComponents]
  }

  /** Writes one component of one tuple; every other (tuple, component) reads as before. */
  function SetComponent<T>(a: AoSArray<T>, t: nat, comp: nat, x: T): (r: AoSArray<T>)
    requires a.Valid() && t < a.numTuples && comp < a.numComponents
    ensures r.Valid() && r.numTuples == a.numTuples && r.numComponents == a.numComponents
    ensures GetComponent(r, t, comp) == x
    ensures forall t', c' :: 0 <= t' < a.numTuples && 0 <= c' < a.numComponents && (t' != t || c' != comp) ==>
      GetComponent(r, t', c') == GetComponent(a, t', c')
  {
    Arith.RowMajorBound(t, comp, a.numComponents, a.numTuples);
    var r := a.(values := a.values[t * a.numComponents + comp := x]);
    forall t', c' | 0 <= t' < a.numTuples && 0 <= c' < a.numComponents && (t' != t || c' != comp)
      ensures GetComponent(r, t', c') == GetComponent(a, t', c')
    {
      Arith.RowMajorBound(t', c', a.numComponents, a.numTuples);
      Arith.DivModOfRowMajor(t', c', a.numComponents);
      Arith.DivModOfRowMajor(t, comp, a.numComponents);
    }
    r
  }
}
