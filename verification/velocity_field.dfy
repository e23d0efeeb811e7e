/**
 * The dataset search of a composite interpolated velocity field
 * (vtkCompositeInterpolatedVelocityField): a list of datasets, a cached "last
 * dataset" tried first, hit and miss counters, and an ordered fallback scan.
 * Locating a point in one dataset and testing a point against a dataset's
 * bounds are floating-point geometry and enter as oracles.
 */
module CompositeVelocityField {
  import opened Wrappers

  /** A dataset as the field sees it: its identity (the pointer), point count and largest cell size. */
  datatype DataSet = DataSet(id: nat, numPoints: nat, maxCellSize: nat)

  /**
   * The field's state.  `weightsSize` is the length of the interpolation
   * weights buffer; `lastCellId` is -1 when no cell is cached.
   */
  datatype Field = Field(datasets: seq<DataSet>, weightsSize: nat, lastDataSet: Option<DataSet>,
                         lastDataSetIndex: int, lastCellId: int, cacheHits: nat, cacheMisses: nat)

  /** The oracles: locating a point in a dataset (the cell found, if any) and the bounds test. */
  datatype Oracles<!P> = Oracles(locate: (DataSet, P) -> Option<int>, withinBounds: (DataSet, P) -> bool)

  /** A freshly constructed field: no datasets, counters at zero, no cached dataset or cell. */
  function New(): (f: Field)
    ensures f.datasets == [] && f.lastDataSet.None? && f.lastDataSetIndex == 0
    ensures f.cacheHits == 0 && f.cacheMisses == 0 && f.lastCellId == -1
  {
    Field([], 0, None, 0, -1, 0, 0)
  }

  /**
   * `AddDataSet(dataset, maxCellSize)`: a null dataset is reported and
   * ignored; otherwise the dataset is appended and the weights buffer grows to
   * the maximum cell size (the dataset's own when the argument is 0), never
   * shrinking; nothing else changes.  The second component says whether an
   * error was reported.
   */
  function AddDataSet(f: Field, dataset: Option<DataSet>, maxCellSize: nat): (r: (Field, bool))
    ensures dataset.None? ==> r == (f, true)
    ensures dataset.Some? ==> !r.1 && r.0.datasets == f.datasets + [dataset.value]
    ensures dataset.Some? ==>
      var wanted := if maxCellSize == 0 then dataset.value.maxCellSize else maxCellSize;
      r.0.weightsSize >= f.weightsSize && r.0.weightsSize >= wanted &&
      (r.0.weightsSize == f.weightsSize || r.0.weightsSize == wanted)
    ensures r.0.lastDataSet == f.lastDataSet && r.0.cacheHits == f.cacheHits && r.0.cacheMisses == f.cacheMisses
    ensures dataset.Some? ==> r.0 == f.(datasets := f.datasets + [dataset.value], weightsSize := r.0.weightsSize)
  {
    if dataset.None? then (f, true)
    else
      var size := if maxCellSize == 0 then dataset.value.maxCellSize else maxCellSize;
      var weights := if size > f.weightsSize then size else f.weightsSize;
      (f.(datasets := f.datasets + [dataset.value], weightsSize := weights), false)
  }

  /**
   * `CopyParameters(from)`: when `from` is a composite field too, its dataset
   * list and weights-buffer length are taken over; otherwise nothing here
   * changes.  The cached dataset and cell and the counters are kept.
   */
  function CopyParameters(f: Field, from: Option<Field>): (r: Field)
    ensures from.None? ==> r == f
    ensures from.Some? ==> r.datasets == from.value.datasets && r.weightsSize == from.value.weightsSize
    ensures r.lastDataSet == f.lastDataSet && r.lastDataSetIndex == f.lastDataSetIndex
    ensures r.cacheHits == f.cacheHits && r.cacheMisses == f.cacheMisses
    ensures from.Some? ==> r == f.(datasets := from.value.datasets, weightsSize := from.value.weightsSize)
  {
    if from.None? then f
    else f.(datasets := from.value.datasets, weightsSize := from.value.weightsSize)
  }

  /**
   * `SetLastCellId(c, dataindex)`: when neither the cell id nor the dataset
   * index changes nothing happens; otherwise both are recorded and the cached
   * dataset becomes the one at `dataindex`.
   */
  function SetLastCellId(f: Field, c: int, dataindex: int): (r: Field)
    requires c != f.lastCellId || dataindex != f.lastDataSetIndex ==> 0 <= dataindex < |f.datasets|
    ensures c == f.lastCellId && dataindex == f.lastDataSetIndex ==> r == f
    ensures r.lastCellId == c && r.lastDataSetIndex == dataindex
    ensures (c != f.lastCellId || dataindex != f.lastDataSetIndex) ==> r.lastDataSet == Some(f.datasets[dataindex])
    ensures r.datasets == f.datasets && r.cacheHits == f.cacheHits && r.cacheMisses == f.cacheMisses
  {
    if f.lastCellId != c || f.lastDataSetIndex != dataindex then
      f.(lastCellId := c, lastDataSet := Some(f.datasets[dataindex]), lastDataSetIndex := dataindex)
    else f
  }

  /** Setting the same cell and dataset twice is the same as setting them once. */
  lemma SetLastCellIdIdempotent(f: Field, c: int, dataindex: int)
    requires 0 <= dataindex < |f.datasets|
    ensures SetLastCellId(SetLastCellId(f, c, dataindex), c, dataindex) == SetLastCellId(f, c, dataindex)
  {
  }

  /** The dataset a search tries first: the cached one, else dataset 0. */
  function StartDataSet(f: Field): DataSet
    requires f.lastDataSet.Some? || |f.datasets| > 0
  {
    if f.lastDataSet.None? then f.datasets[0] else f.lastDataSet.value
  }

  /** Dataset `ds` is tried by the fallback scan: non-empty, not the cached one, and the point is inside its bounds. */
  predicate Accepts<P>(o: Oracles<P>, ds: DataSet, cached: DataSet, x: P) {
    ds.numPoints > 0 && ds.id != cached.id && o.withinBounds(ds, x) && o.locate(ds, x).Some?
  }

  /** The fallback scan from index `i` on: the first dataset that accepts the point, with the cell found in it. */
  function Scan<P>(o: Oracles<P>, datasets: seq<DataSet>, cached: DataSet, x: P, i: nat): (r: Option<(nat, int)>)
    ensures r.Some? ==>
      && i <= r.value.0 < |datasets|
      && Accepts(o, datasets[r.value.0], cached, x)
      && o.locate(datasets[r.value.0], x) == Some(r.value.1)
      && forall m :: i <= m < r.value.0 ==> !Accepts(o, datasets[m], cached, x)
    ensures r.None? ==> forall m :: i <= m < |datasets| ==> !Accepts(o, datasets[m], cached, x)
    decreases |datasets| - i
  {
    if i >= |datasets| then None
    else if Accepts(o, datasets[i], cached, x) then Some((i, o.locate(datasets[i], x).value))
    else Scan(o, datasets, cached, x, i + 1)
  }

  /**
   * The search shared by `FunctionValues` and `InsideTest`: try the cached
   * dataset (dataset 0 when none is cached); on success count a hit.
   * Otherwise count a miss and scan the datasets in index order, skipping
   * empty ones and the cached one and requiring the point to be in bounds;
   * the first success becomes the cached dataset.  When nothing succeeds the
   * cell id is cleared and dataset 0 is cached.
   */
  function Search<P>(f: Field, o: Oracles<P>, x: P): (r: (bool, Field))
    requires |f.datasets| > 0
    ensures r.1.datasets == f.datasets && r.1.weightsSize == f.weightsSize
    ensures r.1.cacheHits + r.1.cacheMisses == f.cacheHits + f.cacheMisses + 1
    ensures o.locate(StartDataSet(f), x).Some? ==>
      && r.0 && r.1.cacheHits == f.cacheHits + 1 && r.1.cacheMisses == f.cacheMisses
      && r.1.lastDataSet == Some(StartDataSet(f))
      && r.1.lastCellId == o.locate(StartDataSet(f), x).value
      && r.1.lastDataSetIndex == (if f.lastDataSet.None? then 0 else f.lastDataSetIndex)
    ensures o.locate(StartDataSet(f), x).None? ==> r.1.cacheMisses == f.cacheMisses + 1 && r.1.cacheHits == f.cacheHits
    ensures o.locate(StartDataSet(f), x).None? && r.0 ==>
      && 0 <= r.1.lastDataSetIndex < |f.datasets|
      && r.1.lastDataSet == Some(f.datasets[r.1.lastDataSetIndex])
      && Accepts(o, f.datasets[r.1.lastDataSetIndex], StartDataSet(f), x)
      && Some(r.1.lastCellId) == o.locate(f.datasets[r.1.lastDataSetIndex], x)
      && forall m :: 0 <= m < r.1.lastDataSetIndex ==> !Accepts(o, f.datasets[m], StartDataSet(f), x)
    ensures !r.0 ==>
      && r.1.lastCellId == -1 && r.1.lastDataSetIndex == 0 && r.1.lastDataSet == Some(f.datasets[0])
      && forall m :: 0 <= m < |f.datasets| ==> !Accepts(o, f.datasets[m], StartDataSet(f), x)
  {
    var start := StartDataSet(f);
    var g := if f.lastDataSet.None? then f.(lastDataSet := Some(start), lastDataSetIndex := 0) else f;
    match o.locate(start, x)
    case Some(cell) => (true, g.(lastCellId := cell, cacheHits := g.cacheHits + 1))
    case None =>
      var h := g.(cacheMisses := g.cacheMisses + 1);
      match Scan(o, f.datasets, start, x, 0)
      case Some((j, cell)) => (true, h.(lastDataSet := Some(f.datasets[j]), lastDataSetIndex := j, lastCellId := cell))
      case None => (false, h.(lastCellId := -1, lastDataSetIndex := 0, lastDataSet := Some(f.datasets[0])))
  }

  /** `FunctionValues(x, f)`: the search with velocity evaluation as the locating step. */
  function FunctionValues<P>(f: Field, evaluate: Oracles<P>, x: P): (r: (bool, Field))
    requires |f.datasets| > 0
    ensures r.1.cacheHits + r.1.cacheMisses == f.cacheHits + f.cacheMisses + 1
    ensures r.0 ==> r.1.lastDataSet.Some? && evaluate.locate(r.1.lastDataSet.value, x) == Some(r.1.lastCellId)
  {
    Search(f, evaluate, x)
  }

  /** `InsideTest(x)`: the same search with cell finding as the locating step. */
  function InsideTest<P>(f: Field, findCell: Oracles<P>, x: P): (r: (bool, Field))
    requires |f.datasets| > 0
    ensures r.1.cacheHits + r.1.cacheMisses == f.cacheHits + f.cacheMisses + 1
    ensures r.0 ==> r.1.lastDataSet.Some? && findCell.locate(r.1.lastDataSet.value, x) == Some(r.1.lastCellId)
  {
    Search(f, findCell, x)
  }

  /** Each dataset identity names one dataset, and the cached dataset, if any, is in the list. */
  predicate CacheConsistent(f: Field) {
    && (forall i, j :: 0 <= i < |f.datasets| && 0 <= j < |f.datasets| && f.datasets[i].id == f.datasets[j].id ==>
          f.datasets[i] == f.datasets[j])
    && (f.lastDataSet.Some? ==> f.lastDataSet.value in f.datasets)
  }

  /** The oracles only locate points inside the bounds of non-empty datasets. */
  ghost predicate OraclesConsistent<P>(o: Oracles<P>, datasets: seq<DataSet>, x: P) {
    forall j :: 0 <= j < |datasets| && o.locate(datasets[j], x).Some? ==>
      datasets[j].numPoints > 0 && o.withinBounds(datasets[j], x)
  }

  /**
   * The cached dataset is invisible in the verdict: with consistent oracles
   * the search succeeds exactly when some dataset of the list locates the
   * point, whichever dataset happens to be cached.
   */
  lemma SearchVerdictIgnoresCache<P>(f: Field, o: Oracles<P>, x: P)
    requires |f.datasets| > 0 && CacheConsistent(f) && OraclesConsistent(o, f.datasets, x)
    ensures Search(f, o, x).0 <==> exists j :: 0 <= j < |f.datasets| && o.locate(f.datasets[j], x).Some?
  {
    var start := StartDataSet(f);
    var k :| 0 <= k < |f.datasets| && f.datasets[k] == start;
    if o.locate(start, x).None? {
      if j :| 0 <= j < |f.datasets| && o.locate(f.datasets[j], x).Some? {
        assert Accepts(o, f.datasets[j], start, x);
      }
    }
  }

  /** Two searches with a consistent cache agree on their verdict whatever each has cached. */
  lemma VerdictSameForAnyCache<P>(f1: Field, f2: Field, o: Oracles<P>, x: P)
    requires f1.datasets == f2.datasets && |f1.datasets| > 0
    requires CacheConsistent(f1) && CacheConsistent(f2) && OraclesConsistent(o, f1.datasets, x)
    ensures Search(f1, o, x).0 == Search(f2, o, x).0
  {
    SearchVerdictIgnoresCache(f1, o, x);
    SearchVerdictIgnoresCache(f2, o, x);
  }
}
