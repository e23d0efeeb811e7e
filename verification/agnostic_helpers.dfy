/**
 * Layout-agnostic tuple helpers (vtkAgnosticArrayHelpers): copy one tuple
 * between any two arrays, or read one tuple into a buffer of doubles, after
 * checking that data types and component counts agree.  The concrete layout of
 * each array (columnar or interleaved) is resolved per call.
 */
module AgnosticArrayHelpers {
  import opened Wrappers
  import SoAArray
  import AoSArray

  /** The two physical layouts an array may have. */
  datatype Storage<V> = SoA(soa: SoAArray.SoAArray<V>) | AoS(aos: AoSArray.AoSArray<V>)

  /** An array with its scalar data type tag (VTK_INT, VTK_FLOAT, ...) and storage. */
  datatype DataArray<V> = DataArray(dataType: int, storage: Storage<V>)

  datatype Warning = DataTypesDiffer | ComponentCountsDiffer

  predicate Valid<V>(a: DataArray<V>) {
    match a.storage
    case SoA(s) => s.Valid()
    case AoS(s) => s.Valid()
  }

  function NumberOfComponents<V>(a: DataArray<V>): nat {
    match a.storage
    case SoA(s) => s.NumberOfComponents()
    case AoS(s) => s.numComponents
  }

  function NumberOfTuples<V>(a: DataArray<V>): nat {
    match a.storage
    case SoA(s) => s.numTuples
    case AoS(s) => s.numTuples
  }

  /** Component `c` of tuple `t`, read through whichever layout the array has. */
  function Component<V>(a: DataArray<V>, t: nat, c: nat): V
    requires Valid(a) && t < NumberOfTuples(a) && c < NumberOfComponents(a)
  {
    match a.storage
    case SoA(s) => SoAArray.GetComponentValue(s, t, c)
    case AoS(s) => AoSArray.GetComponent(s, t, c)
  }

  /** Writes one component through whichever layout the array has; nothing else changes. */
  function SetComponent<V>(a: DataArray<V>, t: nat, c: nat, x: V): (r: DataArray<V>)
    requires Valid(a) && t < NumberOfTuples(a) && c < NumberOfComponents(a)
    ensures Valid(r) && r.dataType == a.dataType && r.storage.SoA? == a.storage.SoA?
    ensures NumberOfTuples(r) == NumberOfTuples(a) && NumberOfComponents(r) == NumberOfComponents(a)
    ensures Component(r, t, c) == x
    ensures forall t', c' :: 0 <= t' < NumberOfTuples(a) && 0 <= c' < NumberOfComponents(a) && (t' != t || c' != c) ==>
      Component(r, t', c') == Component(a, t', c')
  {
    match a.storage
    case SoA(s) => a.(storage := SoA(SoAArray.SetComponentValue(s, t, c, x)))
    case AoS(s) => a.(storage := AoS(AoSArray.SetComponent(s, t, c, x)))
  }

  /** The logical content of an array, tuple by tuple, whatever its layout. */
  function Logical<V>(a: DataArray<V>): (r: seq<seq<V>>)
    requires Valid(a)
    ensures |r| == NumberOfTuples(a)
    ensures forall t :: 0 <= t < |r| ==> |r[t]| == NumberOfComponents(a)
  {
    seq(NumberOfTuples(a), t requires 0 <= t < NumberOfTuples(a) =>
      seq(NumberOfComponents(a), c requires 0 <= c < NumberOfComponents(a) => Component(a, t, c)))
  }

  /** `dest` became `dest'` by overwriting tuple `destTuple` with tuple `sourceTuple` of `source`, and nothing else. */
  ghost predicate TupleCopied<V>(dest: DataArray<V>, dest': DataArray<V>, destTuple: nat, source: DataArray<V>, sourceTuple: nat)
    requires Valid(dest) && Valid(source) && destTuple < NumberOfTuples(dest) && sourceTuple < NumberOfTuples(source)
    requires NumberOfComponents(dest) == NumberOfComponents(source)
  {
    && Valid(dest') && dest'.dataType == dest.dataType && dest'.storage.SoA? == dest.storage.SoA?
    && NumberOfTuples(dest') == NumberOfTuples(dest) && NumberOfComponents(dest') == NumberOfComponents(dest)
    && (forall cc :: 0 <= cc < NumberOfComponents(dest) ==> Component(dest', destTuple, cc) == Component(source, sourceTuple, cc))
    && (forall t, cc :: 0 <= t < NumberOfTuples(dest) && t != destTuple && 0 <= cc < NumberOfComponents(dest) ==>
          Component(dest', t, cc) == Component(dest, t, cc))
  }

  /** The per-layout copy loop: every component of the destination tuple takes the source's value. */
  method CopyTuple<V>(dest: DataArray<V>, destTuple: nat, source: DataArray<V>, sourceTuple: nat) returns (r: DataArray<V>)
    requires Valid(dest) && Valid(source) && destTuple < NumberOfTuples(dest) && sourceTuple < NumberOfTuples(source)
    requires NumberOfComponents(dest) == NumberOfComponents(source)
    ensures TupleCopied(dest, r, destTuple, source, sourceTuple)
  {
    r := dest;
    var cc := 0;
    while cc < NumberOfComponents(dest)
      invariant 0 <= cc <= NumberOfComponents(dest)
      invariant Valid(r) && r.dataType == dest.dataType && r.storage.SoA? == dest.storage.SoA?
      invariant NumberOfTuples(r) == NumberOfTuples(dest) && NumberOfComponents(r) == NumberOfComponents(dest)
      invariant forall j :: 0 <= j < cc ==> Component(r, destTuple, j) == Component(source, sourceTuple, j)
      invariant forall j :: cc <= j < NumberOfComponents(dest) ==> Component(r, destTuple, j) == Component(dest, destTuple, j)
      invariant forall t, j :: 0 <= t < NumberOfTuples(dest) && t != destTuple && 0 <= j < NumberOfComponents(dest) ==>
        Component(r, t, j) == Component(dest, t, j)
    {
      r := SetComponent(r, destTuple, cc, Component(source, sourceTuple, cc));
      cc := cc + 1;
    }
  }

  /**
   * `SetTuple(dest, destTuple, source, sourceTuple)`: refuses, with a warning
   * and no change, arrays whose data types or component counts differ,
   * whatever the tuple indices; otherwise copies the tuple, which must then
   * exist in both arrays.
   */
  method SetTuple<V>(dest: DataArray<V>, destTuple: nat, source: DataArray<V>, sourceTuple: nat)
    returns (r: DataArray<V>, warning: Option<Warning>)
    requires source.dataType == dest.dataType && NumberOfComponents(dest) == NumberOfComponents(source) ==>
      Valid(dest) && Valid(source) && destTuple < NumberOfTuples(dest) && sourceTuple < NumberOfTuples(source)
    ensures source.dataType != dest.dataType ==> warning == Some(DataTypesDiffer) && r == dest
    ensures source.dataType == dest.dataType && NumberOfComponents(dest) != NumberOfComponents(source) ==>
      warning == Some(ComponentCountsDiffer) && r == dest
    ensures warning == None <==> source.dataType == dest.dataType && NumberOfComponents(dest) == NumberOfComponents(source)
    ensures warning == None ==> TupleCopied(dest, r, destTuple, source, sourceTuple)
  {
    if source.dataType != dest.dataType {
      return dest, Some(DataTypesDiffer);
    }
    if NumberOfComponents(dest) != NumberOfComponents(source) {
      return dest, Some(ComponentCountsDiffer);
    }
    r := CopyTuple(dest, destTuple, source, sourceTuple);
    warning := None;
  }

  /**
   * `GetTuple(source, tuple, buffer)`: entry `cc` of the buffer becomes
   * component `cc` converted to double for every component; entries past the
   * component count are left as they were.
   */
  method GetTuple<V>(source: DataArray<V>, tuple: nat, buffer: seq<real>, toDouble: V -> real) returns (r: seq<real>)
    requires Valid(source) && tuple < NumberOfTuples(source) && |buffer| >= NumberOfComponents(source)
    ensures |r| == |buffer|
    ensures forall cc :: 0 <= cc < NumberOfComponents(source) ==> r[cc] == toDouble(Component(source, tuple, cc))
    ensures forall cc :: NumberOfComponents(source) <= cc < |buffer| ==> r[cc] == buffer[cc]
  {
    r := buffer;
    var cc := 0;
    while cc < NumberOfComponents(source)
      invariant 0 <= cc <= NumberOfComponents(source)
      invariant |r| == |buffer|
      invariant forall j :: 0 <= j < cc ==> r[j] == toDouble(Component(source, tuple, j))
      invariant forall j :: cc <= j < |buffer| ==> r[j] == buffer[j]
    {
      r := r[cc := toDouble(Component(source, tuple, cc))];
      cc := cc + 1;
    }
  }

  /** After a successful `SetTuple`, reading the destination tuple gives what reading the source tuple gives. */
  method SetThenGetTuple<V>(dest: DataArray<V>, destTuple: nat, source: DataArray<V>, sourceTuple: nat, toDouble: V -> real)
    returns (fromDest: seq<real>, fromSource: seq<real>)
    requires Valid(dest) && Valid(source) && destTuple < NumberOfTuples(dest) && sourceTuple < NumberOfTuples(source)
    requires source.dataType == dest.dataType && NumberOfComponents(dest) == NumberOfComponents(source)
    ensures |fromDest| == NumberOfComponents(source) && fromDest == fromSource
  {
    var r, w := SetTuple(dest, destTuple, source, sourceTuple);
    var zeros := seq(NumberOfComponents(source), _ => 0.0);
    fromDest := GetTuple(r, destTuple, zeros, toDouble);
    fromSource := GetTuple(source, sourceTuple, zeros, toDouble);
  }

  /**
   * The copy does not depend on layout: two destinations with the same logical
   * content, given sources with the same logical content, end with the same
   * logical content, whichever of the two layouts each array uses.
   */
  lemma CopyIsLayoutIndependent<V>(
    d1: DataArray<V>, d1': DataArray<V>, s1: DataArray<V>,
    d2: DataArray<V>, d2': DataArray<V>, s2: DataArray<V>,
    destTuple: nat, sourceTuple: nat)
    requires Valid(d1) && Valid(s1) && destTuple < NumberOfTuples(d1) && sourceTuple < NumberOfTuples(s1)
    requires Valid(d2) && Valid(s2) && destTuple < NumberOfTuples(d2) && sourceTuple < NumberOfTuples(s2)
    requires NumberOfComponents(d1) == NumberOfComponents(s1) && NumberOfComponents(d2) == NumberOfComponents(s2)
    requires Logical(d1) == Logical(d2) && Logical(s1) == Logical(s2)
    requires NumberOfComponents(d1) == NumberOfComponents(d2)
    requires TupleCopied(d1, d1', destTuple, s1, sourceTuple) && TupleCopied(d2, d2', destTuple, s2, sourceTuple)
    ensures Logical(d1') == Logical(d2')
  {
    var k := NumberOfComponents(d1);
    var l1, l2 := Logical(d1'), Logical(d2');
    forall t | 0 <= t < |l1| ensures l1[t] == l2[t] {
      forall c | 0 <= c < k ensures l1[t][c] == l2[t][c] {
        if t == destTuple {
          assert Logical(s1)[sourceTuple][c] == Logical(s2)[sourceTuple][c];
        } else {
          assert Logical(d1)[t][c] == Logical(d2)[t][c];
        }
      }
    }
  }
}
