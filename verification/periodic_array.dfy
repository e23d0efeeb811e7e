/**
 * The read-only periodic view (vtkPeriodicDataArray): it wraps an interleaved
 * source array and hands out each tuple after an abstract `Transform` (and,
 * when the `Normalize` flag is set, a normalisation step) has been applied.
 * The view keeps the most recently transformed tuple in a one-tuple cache and
 * refuses every mutator.
 */
module PeriodicArray {
  import opened Wrappers
  import AoSArray
  import Arith

  /** The concrete subclass's hooks: the geometric transform and the normalisation it applies on request. */
  datatype Hooks<!S> = Hooks(transform: seq<S> -> seq<S>, normalise: seq<S> -> seq<S>)

  /** Both hooks map a tuple of `k` components to a tuple of `k` components, as an in-place transform does. */
  ghost predicate KeepsWidth<S(!new)>(h: Hooks<S>, k: nat) {
    forall t: seq<S> {:trigger h.transform(t)} {:trigger h.normalise(t)} ::
      |t| == k ==> |h.transform(t)| == k && |h.normalise(t)| == k
  }

  /** The one-tuple cache: empty, or the index and transformed values of the last tuple read. */
  datatype Cache<S> = Empty | Cached(idx: nat, scalars: seq<S>)

  /** The view's state.  `source` is the bound original data; `Normalize` defaults to false. */
  datatype View<S> = View(source: Option<AoSArray.AoSArray<S>>, normalize: bool, cache: Cache<S>) {
    predicate Bound() { source.Some? && source.value.Valid() }
  }

  /** A freshly constructed view: nothing bound, nothing cached, `Normalize` off. */
  function New<S(!new)>(): (v: View<S>)
    ensures !v.Bound() && v.cache == Empty && !v.normalize
  {
    View(None, false, Empty)
  }

  /** Number of tuples the view exposes: those of the bound source, or none. */
  function NumberOfTuples<S(!new)>(v: View<S>): nat {
    if v.Bound() then v.source.value.numTuples else 0
  }

  function NumberOfComponents<S(!new)>(v: View<S>): nat {
    if v.Bound() then v.source.value.numComponents else 0
  }

  /** The view is usable: bound to valid data, with hooks that keep the tuple width. */
  ghost predicate Ready<S(!new)>(v: View<S>, h: Hooks<S>) {
    v.Bound() && KeepsWidth(h, v.source.value.numComponents)
  }

  /** The abstract transform followed, when `normalize` is set, by normalisation. */
  function Apply<S(!new)>(h: Hooks<S>, normalize: bool, raw: seq<S>): seq<S> {
    if normalize then h.normalise(h.transform(raw)) else h.transform(raw)
  }

  /** Tuple `i` as the view presents it: source tuple `i` after the transform, normalised when the flag is set. */
  function GetTypedTuple<S(!new)>(v: View<S>, h: Hooks<S>, i: nat): (r: seq<S>)
    requires Ready(v, h) && i < NumberOfTuples(v)
    ensures |r| == NumberOfComponents(v)
    ensures !v.normalize ==> r == h.transform(AoSArray.GetTypedTuple(v.source.value, i))
    ensures v.normalize ==> r == h.normalise(h.transform(AoSArray.GetTypedTuple(v.source.value, i)))
  {
    Apply(h, v.normalize, AoSArray.GetTypedTuple(v.source.value, i))
  }

  /** Component `c` of tuple `t`, obtained by transforming the whole tuple. */
  function GetTypedComponent<S(!new)>(v: View<S>, h: Hooks<S>, t: nat, c: nat): (r: S)
    requires Ready(v, h) && t < NumberOfTuples(v) && c < NumberOfComponents(v)
    ensures !v.normalize ==> r == h.transform(AoSArray.GetTypedTuple(v.source.value, t))[c]
    ensures v.normalize ==> r == h.normalise(h.transform(AoSArray.GetTypedTuple(v.source.value, t)))[c]
  {
    GetTypedTuple(v, h, t)[c]
  }

  /** The cache, if it holds anything, holds the transformed tuple of its index. */
  ghost predicate Coherent<S(!new)>(v: View<S>, h: Hooks<S>) {
    Ready(v, h) &&
    (v.cache.Cached? ==> v.cache.idx < NumberOfTuples(v) && v.cache.scalars == GetTypedTuple(v, h, v.cache.idx))
  }

  /** Ensures tuple `i` is cached, transforming it only when the cache holds another index. */
  function Refresh<S(!new)>(v: View<S>, h: Hooks<S>, i: nat): (r: View<S>)
    requires Coherent(v, h) && i < NumberOfTuples(v)
    ensures Coherent(r, h)
    ensures r.cache == Cached(i, GetTypedTuple(v, h, i))
    ensures r.source == v.source && r.normalize == v.normalize
  {
    if v.cache.Cached? && v.cache.idx == i then v
    else v.(cache := Cached(i, GetTypedTuple(v, h, i)))
  }

  /** Whether reading tuple `i` invokes the transform: exactly when the cache does not hold `i`. */
  function Recomputes<S(!new)>(v: View<S>, i: nat): bool {
    !(v.cache.Cached? && v.cache.idx == i)
  }

  /**
   * `GetTuple(i, double*)`: the transformed tuple `i`, converted to double,
   * served from the cache when it holds `i`.  On a coherent view the values
   * never depend on what the cache held before the call.
   */
  function GetTuple<S(!new)>(v: View<S>, h: Hooks<S>, toDouble: S -> real, i: nat): (r: (seq<real>, View<S>))
    requires Coherent(v, h) && i < NumberOfTuples(v)
    ensures Coherent(r.1, h) && r.1.source == v.source && r.1.normalize == v.normalize
    ensures |r.0| == NumberOfComponents(v)
    ensures forall j :: 0 <= j < |r.0| ==> r.0[j] == toDouble(GetTypedTuple(v, h, i)[j])
    ensures r.1.cache.Cached? && r.1.cache.idx == i
  {
    var w := Refresh(v, h, i);
    (seq(|w.cache.scalars|, j requires 0 <= j < |w.cache.scalars| => toDouble(w.cache.scalars[j])), w)
  }

  /** `GetValue(idx)`: the component of the owning tuple, through the cache. */
  function GetValue<S(!new)>(v: View<S>, h: Hooks<S>, idx: nat): (r: (S, View<S>))
    requires Coherent(v, h) && NumberOfComponents(v) > 0 && idx < NumberOfTuples(v) * NumberOfComponents(v)
    ensures Coherent(r.1, h) && r.1.source == v.source && r.1.normalize == v.normalize
    ensures idx / NumberOfComponents(v) < NumberOfTuples(v)
    ensures r.0 == GetTypedComponent(v, h, idx / NumberOfComponents(v), idx % NumberOfComponents(v))
  {
    var k := NumberOfComponents(v);
    Arith.DivBound(idx, k, NumberOfTuples(v));
    var w := Refresh(v, h, idx / k);
    (w.cache.scalars[idx % k], w)
  }

  /** `GetValue` agrees with the tuple view: flat index `t*k + c` is component `c` of tuple `t`. */
  lemma GetValueIsTupleMajor<S(!new)>(v: View<S>, h: Hooks<S>, t: nat, c: nat)
    requires Coherent(v, h) && t < NumberOfTuples(v) && c < NumberOfComponents(v)
    ensures t * NumberOfComponents(v) + c < NumberOfTuples(v) * NumberOfComponents(v)
    ensures GetValue(v, h, t * NumberOfComponents(v) + c).0 == GetTypedTuple(v, h, t)[c]
  {
    Arith.RowMajorBound(t, c, NumberOfComponents(v), NumberOfTuples(v));
    Arith.DivModOfRowMajor(t, c, NumberOfComponents(v));
  }

  /** Reading the same tuple twice in a row transforms it once: the second read is a cache hit. */
  lemma SecondReadIsCacheHit<S(!new)>(v: View<S>, h: Hooks<S>, toDouble: S -> real, i: nat)
    requires Coherent(v, h) && i < NumberOfTuples(v)
    ensures !Recomputes(GetTuple(v, h, toDouble, i).1, i)
    ensures GetTuple(GetTuple(v, h, toDouble, i).1, h, toDouble, i).0 == GetTuple(v, h, toDouble, i).0
  {
  }

  /** Two coherent views over the same source and flag read every tuple of `ids` identically. */
  lemma ReadsAgree<S(!new)>(v: View<S>, w: View<S>, h: Hooks<S>, toDouble: S -> real, ids: seq<nat>)
    requires Coherent(v, h) && Coherent(w, h) && v.source == w.source && v.normalize == w.normalize
    requires forall n :: 0 <= n < |ids| ==> ids[n] < NumberOfTuples(v)
    ensures forall n :: 0 <= n < |ids| ==> GetTuple(v, h, toDouble, ids[n]).0 == GetTuple(w, h, toDouble, ids[n]).0
  {
    forall n | 0 <= n < |ids|
      ensures GetTuple(v, h, toDouble, ids[n]).0 == GetTuple(w, h, toDouble, ids[n]).0
    {
      assert GetTypedTuple(v, h, ids[n]) == GetTypedTuple(w, h, ids[n]);
    }
  }

  /** The transformed tuples, as doubles, at each of `ids`, read one after another through the cache. */
  function GetTuples<S(!new)>(v: View<S>, h: Hooks<S>, toDouble: S -> real, ids: seq<nat>): (r: (seq<seq<real>>, View<S>))
    requires Coherent(v, h)
    requires forall n :: 0 <= n < |ids| ==> ids[n] < NumberOfTuples(v)
    ensures Coherent(r.1, h) && r.1.source == v.source && r.1.normalize == v.normalize
    ensures |r.0| == |ids|
    ensures forall n :: 0 <= n < |ids| ==> r.0[n] == GetTuple(v, h, toDouble, ids[n]).0
    decreases |ids|
  {
    if |ids| == 0 then ([], v)
    else
      var (first, w) := GetTuple(v, h, toDouble, ids[0]);
      var (rest, u) := GetTuples(w, h, toDouble, ids[1..]);
      ReadsAgree(w, v, h, toDouble, ids[1..]);
      ([first] + rest, u)
  }

  /** The tuples `p1` through `p2` inclusive. */
  function GetTupleRange<S(!new)>(v: View<S>, h: Hooks<S>, toDouble: S -> real, p1: nat, p2: nat): (r: (seq<seq<real>>, View<S>))
    requires Coherent(v, h) && p1 <= p2 < NumberOfTuples(v)
    ensures |r.0| == p2 - p1 + 1
    ensures forall n :: 0 <= n <= p2 - p1 ==> r.0[n] == GetTuple(v, h, toDouble, p1 + n).0
  {
    var ids: seq<nat> := seq(p2 - p1 + 1, n => p1 + n);
    assert forall n :: 0 <= n < |ids| ==> ids[n] == p1 + n < NumberOfTuples(v);
    GetTuples(v, h, toDouble, ids)
  }

  /**
   * Cache transparency for coherent views: a read's values depend only on the
   * source, the flags and the index.  Any two coherent views over the same data
   * (whose caches hold different tuples, for instance after different earlier
   * reads) answer the same sequence of reads identically.  A view whose cache
   * is stale is outside this promise; see `StaleReadAfterSetNormalize`.
   */
  lemma {:induction false} CacheIsTransparent<S(!new)>(v1: View<S>, v2: View<S>, h: Hooks<S>, toDouble: S -> real, ids: seq<nat>)
    requires Coherent(v1, h) && Coherent(v2, h)
    requires v1.source == v2.source && v1.normalize == v2.normalize
    requires forall n :: 0 <= n < |ids| ==> ids[n] < NumberOfTuples(v1)
    ensures GetTuples(v1, h, toDouble, ids).0 == GetTuples(v2, h, toDouble, ids).0
    decreases |ids|
  {
    if |ids| > 0 {
      var (f1, w1) := GetTuple(v1, h, toDouble, ids[0]);
      var (f2, w2) := GetTuple(v2, h, toDouble, ids[0]);
      assert f1 == f2;
      CacheIsTransparent(w1, w2, h, toDouble, ids[1..]);
    }
  }

  /**
   * `Initialize`, then `InitializeArray(data)`: binds the view to `data`
   * without touching any tuple; the cache starts empty.  Without data the view
   * stays unbound.
   */
  function InitializeArray<S(!new)>(v: View<S>, data: Option<AoSArray.AoSArray<S>>): (r: View<S>)
    ensures r.cache == Empty && r.normalize == v.normalize
    ensures r.source == data
  {
    View(data, v.normalize, Empty)
  }

  /** After binding, every read is the transform of the matching source tuple and the tuple count is the source's. */
  lemma InitializeArrayExposesTransformedSource<S(!new)>(v: View<S>, h: Hooks<S>, toDouble: S -> real, data: AoSArray.AoSArray<S>, i: nat)
    requires data.Valid() && KeepsWidth(h, data.numComponents) && i < data.numTuples
    ensures var w := InitializeArray(v, Some(data));
      && Coherent(w, h) && NumberOfTuples(w) == data.numTuples && NumberOfComponents(w) == data.numComponents
      && Recomputes(w, i)
      && GetTypedTuple(w, h, i) == Apply(h, v.normalize, AoSArray.GetTypedTuple(data, i))
  {
  }

  /** The cache, if it holds anything, holds an in-range index and a tuple of the view's width. */
  predicate CacheFits<S(!new)>(v: View<S>) {
    v.cache.Cached? ==> v.cache.idx < NumberOfTuples(v) && |v.cache.scalars| == NumberOfComponents(v)
  }

  /**
   * A typed read as the source serves it: the cached scalars whenever the
   * cached index is `i`, whatever flag they were computed under, and the
   * transform of source tuple `i` otherwise.
   */
  function ServedTuple<S(!new)>(v: View<S>, h: Hooks<S>, i: nat): (r: seq<S>)
    requires Ready(v, h) && CacheFits(v) && i < NumberOfTuples(v)
    ensures |r| == NumberOfComponents(v)
    ensures v.cache.Cached? && v.cache.idx == i ==> r == v.cache.scalars
    ensures Coherent(v, h) ==> r == Apply(h, v.normalize, AoSArray.GetTypedTuple(v.source.value, i))
  {
    if v.cache.Cached? && v.cache.idx == i then v.cache.scalars else GetTypedTuple(v, h, i)
  }

  /**
   * `SetNormalize` as the header declares it (a plain set macro): only the flag
   * changes, and the cached tuple, computed under the old flag, stays.
   */
  function SetNormalizeAsWritten<S(!new)>(v: View<S>, flag: bool): (r: View<S>)
    ensures r.normalize == flag && r.source == v.source && r.cache == v.cache
    ensures CacheFits(v) ==> CacheFits(r)
  {
    v.(normalize := flag)
  }

  /**
   * Reading tuple `i`, flipping the flag with the as-written setter, and reading
   * `i` again serves the tuple computed under the old flag whenever the
   * normaliser changes that tuple: the cache is no longer coherent.
   */
  lemma StaleReadAfterSetNormalize<S(!new)>(v: View<S>, h: Hooks<S>, i: nat)
    requires Coherent(v, h) && i < NumberOfTuples(v)
    requires Apply(h, !v.normalize, AoSArray.GetTypedTuple(v.source.value, i))
          != Apply(h, v.normalize, AoSArray.GetTypedTuple(v.source.value, i))
    ensures var w := SetNormalizeAsWritten(Refresh(v, h, i), !v.normalize);
      && Ready(w, h) && CacheFits(w) && !Coherent(w, h)
      && ServedTuple(w, h, i) == Apply(h, v.normalize, AoSArray.GetTypedTuple(v.source.value, i))
      && ServedTuple(w, h, i) != Apply(h, w.normalize, AoSArray.GetTypedTuple(v.source.value, i))
  {
  }

  /** Hooks of a one-component view: the identity transform and a normaliser that scales every tuple to unit entries. */
  function UnitHooks(): (h: Hooks<int>)
    ensures KeepsWidth(h, 1)
  {
    Hooks(t => t, t => seq(|t|, j => 1))
  }

  /**
   * The stale read on a concrete input: one tuple holding 3, read with
   * `Normalize` off (the cache holds 3), then `SetNormalize(true)`: the next
   * read still serves 3 where the normalised tuple is 1.
   */
  lemma StaleReadExample()
    ensures var v := SetNormalizeAsWritten(Refresh(InitializeArray(New<int>(), Some(AoSArray.AoSArray([3], 1, 1))), UnitHooks(), 0), true);
      && Ready(v, UnitHooks()) && CacheFits(v)
      && ServedTuple(v, UnitHooks(), 0) == [3]
      && Apply(UnitHooks(), true, AoSArray.GetTypedTuple(v.source.value, 0)) == [1]
  {
    var h := UnitHooks();
    var d := AoSArray.AoSArray([3], 1, 1);
    var v0 := InitializeArray(New<int>(), Some(d));
    assert AoSArray.GetTypedTuple(d, 0) == [3];
    assert GetTypedTuple(v0, h, 0) == [3];
  }

  /**
   * `SetNormalize` as intended: the flag changes and the cache, which holds
   * values computed under the old flag, is dropped.  The result is coherent, so
   * every later read is the transform under the new flag.
   */
  function SetNormalize<S(!new)>(v: View<S>, flag: bool): (r: View<S>)
    ensures r.normalize == flag && r.source == v.source && r.cache == Empty
    ensures forall h: Hooks<S> :: Ready(v, h) ==> Coherent(r, h)
  {
    View(v.source, flag, Empty)
  }

  /** After the intended setter every read, as the source serves it, follows the new flag. */
  lemma SetNormalizeReadsFollowFlag<S(!new)>(v: View<S>, h: Hooks<S>, flag: bool, i: nat)
    requires Coherent(v, h) && i < NumberOfTuples(v)
    ensures var w := SetNormalize(v, flag);
      && Coherent(w, h) && CacheFits(w)
      && ServedTuple(w, h, i) == Apply(h, flag, AoSArray.GetTypedTuple(v.source.value, i))
      && Refresh(w, h, i).cache == Cached(i, Apply(h, flag, AoSArray.GetTypedTuple(v.source.value, i)))
  {
  }

  /** The operations a writable array offers and this read-only container refuses. */
  datatype Mutator =
    | SetValue | SetTuple | SetTypedTuple | SetTypedComponent | SetVariantValue
    | InsertValue | InsertNextValue | InsertTuple | InsertTuples | InsertNextTuple
    | InsertTypedTuple | InsertNextTypedTuple | InsertVariantValue
    | RemoveTuple | RemoveFirstTuple | RemoveLastTuple
    | Allocate | Resize | SetNumberOfTuples | AllocateTuples | ReallocateTuples
    | DeepCopy | InterpolateTuple

  /** The operations the view declares but does not implement, plus `Squeeze`. */
  datatype Query = LookupValue | LookupTypedValue | ClearLookup | GetVariantValue | NewIterator | Squeeze

  datatype Status = ReadOnlyRefused | NotImplemented | NoEffect

  /** Every mutator is refused and leaves the view, its source data and its tuple count as they were. */
  function Mutate<S(!new,==)>(v: View<S>, m: Mutator): (r: (View<S>, Status))
    ensures r.0 == v && r.1 == ReadOnlyRefused
    ensures NumberOfTuples(r.0) == NumberOfTuples(v)
  {
    (v, ReadOnlyRefused)
  }

  /** Lookups, variant access and iterators are not implemented; `Squeeze` has no effect. */
  function Ask<S(!new,==)>(v: View<S>, q: Query): (r: (View<S>, Status))
    ensures r.0 == v
    ensures r.1 == (if q == Squeeze then NoEffect else NotImplemented)
  {
    if q == Squeeze then (v, NoEffect) else (v, NotImplemented)
  }
}
