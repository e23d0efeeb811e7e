# A Dafny model of eight small cores of VTK

This project models, as pure functions over immutable datatypes, eight small pieces of the Visualization Toolkit (VTK). It proves what each one promises.

- **Columnar array storage** (`SoAArray`). `vtkSoADataArrayTemplate` keeps one buffer per component. The module covers component, tuple and flat-index access, the split of a flat index into (tuple, component), binding a component buffer, changing the component count, and the `Resizeable` contract.
- **Periodic array view** (`PeriodicArray`, over the interleaved `AoSArray`). `vtkPeriodicDataArray` is a read-only view. It hands out each source tuple after an abstract `Transform` and, when the `Normalize` flag is set, a normalisation. It keeps a one-tuple cache (`TempTupleIdx`) and refuses every mutator.
- **Layout-agnostic tuple helpers** (`AgnosticArrayHelpers`). `SetTuple` and `GetTuple` from `vtkAgnosticArrayHelpers.cxx` guard on data type and component count. They copy or read one tuple, whatever the layout of either array (SoA or AoS).
- **Selection insidedness** (`SelectionOperator`). This is the bookkeeping of `vtkSelectionOperator`:
  - which composite blocks a node applies to;
  - the signed-char insidedness array;
  - the rule that a cell is selected iff one of its points is;
  - the block loop over a composite data set.
- **Composite velocity-field search** (`CompositeVelocityField`). `vtkCompositeInterpolatedVelocityField` keeps the last dataset as a cache with hit and miss counters. On a miss it scans the datasets in order. Point location and the bounds test are oracles.
- **Variant serialisation** (`VariantSerialization`). The Boost `save`/`load` pairs for `vtkVariant`, `vtkVariantArray` and strings are modelled over an archive of typed tokens.
- **SEG-Y layout arithmetic** (`SegYReaderInternal`, `SegYReader`):
  - the coordinate scalar of a trace header (SEG-Y rev 1, section 4, Table 2);
  - the 3600-byte first-trace offset (SEG-Y rev 1, section 3);
  - the trace-to-volume and trace-to-grid re-indexing;
  - the reader's defaults, its XY byte-position switch and its choice of output type.
- **Wrapper logic** (`ExecutionModel`, `PrefixCheck`):
  - the Python `>>` pipeline composition, `select_ports` argument parsing, and the connection restoring and output shaping of `_call`;
  - the class-name prefix check macro.

`Wrappers` (Option and Result) and `Arith` (row-major div/mod facts) are support modules.

Calls into code the model cannot see are function parameters:

- the periodic transform and normaliser;
- the per-element insidedness oracle;
- point location and the bounds test;
- the conversion of a scalar to `double`.

Floating point is modelled by real numbers: the coordinate multiplier and scaled coordinates of the SEG-Y reader are stated in exact arithmetic, without `double` rounding (see Left out).

## Model

| member | source | states |
|---|---|---|
| SoAArray.New | Common/Core/vtkSoADataArrayTemplate.h:37 | a new array has no component buffers and no tuples, is valid, and is resizeable (assumed, see Left out) |
| SoAArray.GetComponentValue | Common/Core/vtkSoADataArrayTemplate.h:57-60 | component comp of tuple t is stored column-wise: it is entry t of the buffer of component comp |
| SoAArray.SetComponentValue | Common/Core/vtkSoADataArrayTemplate.h:75-78 | the written (tuple, component) reads back as the new value, and every other (tuple, component) reads as before; shape and resizeability are kept |
| SoAArray.GetTupleValue | Common/Core/vtkSoADataArrayTemplate.h:50-56 | the tuple has one entry per component, and entry cc is element t of component buffer cc |
| SoAArray.SetTupleValue | Common/Core/vtkSoADataArrayTemplate.h:68-74 | component cc of tuple t becomes tuple[cc] for every component, and all other tuples are unchanged |
| SoAArray.SetThenGetTuple | Common/Core/vtkSoADataArrayTemplate.h:50-74 | reading a tuple back after writing it returns exactly the tuple written |
| SoAArray.TupleIndexFromValueIndex | Common/Core/vtkSoADataArrayTemplate.h:134-138 | the (tuple, component) pair recombines to the flat index, with the component below the component count |
| SoAArray.FlatIndexIsTupleMajor | Common/Core/vtkSoADataArrayTemplate.h:43-49 | flat index t*k + c is in range and reads component c of tuple t, so flat indexing is tuple-major |
| SoAArray.GetValue | Common/Core/vtkSoADataArrayTemplate.h:43-49 | flat index v is read from the buffer of component v mod k at position v div k, and v div k is a valid tuple |
| SoAArray.SetValue | Common/Core/vtkSoADataArrayTemplate.h:61-67 | writing through a flat index keeps the array's shape |
| SoAArray.SetValueThenGetValue | Common/Core/vtkSoADataArrayTemplate.h:61-67 | after SetValue(v, x), GetValue(v) is x, and every other flat index reads as before |
| SoAArray.SetArray | Common/Core/vtkSoADataArrayTemplate.h:88-99 | binding succeeds iff the component exists; it replaces that component's buffer only and keeps the array valid when the length matches (refusal and kept tuple count are assumptions, see Left out) |
| SoAArray.SetNumberOfComponents | Common/Core/vtkSoADataArrayTemplate.h:101-103 | there is one buffer per component afterwards; existing components keep their data, and new ones are tuple-length buffers (zero-filled by assumption, see Left out) |
| SoAArray.ReallocateTuples | Common/Core/vtkSoADataArrayTemplate.h:105-124 | with Resizeable off, growing fails and shrinking leaves the array as it was; with it on, every buffer takes the new length and keeps its prefix (grown entries read as zero by assumption, see Left out) |
| SoAArray.AllocateTuples | Common/Core/vtkSoADataArrayTemplate.h:105-124 | with Resizeable off, growing fails and shrinking has no effect; with it on, the buffers are freshly sized (entries read as zero by assumption, see Left out) |
| AgnosticArrayHelpers.CopyTuple | Common/Core/vtkAgnosticArrayHelpers.cxx:24-33 | every component of the destination tuple becomes the source tuple's component; other destination tuples and the layout are unchanged |
| AgnosticArrayHelpers.SetTuple | Common/Core/vtkAgnosticArrayHelpers.cxx:60-77 | a type mismatch or a component-count mismatch warns and leaves the destination unchanged, whatever the tuple indices; there is no warning exactly when both match, and then the tuple is copied (the indices must then be in range) |
| AgnosticArrayHelpers.GetTuple | Common/Core/vtkAgnosticArrayHelpers.cxx:36-43 | buffer entries below the component count become the tuple's components as doubles, and entries beyond are left untouched |
| AgnosticArrayHelpers.SetThenGetTuple | Common/Core/vtkAgnosticArrayHelpers.cxx:60-83 | after a successful SetTuple, reading the destination tuple gives what reading the source tuple gives |
| AgnosticArrayHelpers.CopyIsLayoutIndependent | Common/Core/vtkAgnosticArrayHelpers.cxx:75-82 | two copies between arrays with the same logical contents give the same logical result, whether each array is SoA or AoS |
| PeriodicArray.New | Common/Core/vtkPeriodicDataArray.h:250-253 | a new view has no source, no cached tuple, and Normalize off |
| PeriodicArray.GetTypedTuple | Common/Core/vtkPeriodicDataArray.h:112-114 | typed tuple i is the transform of source tuple i, followed by the normaliser exactly when Normalize is set, with the source's width |
| PeriodicArray.GetTypedComponent | Common/Core/vtkPeriodicDataArray.h:116-120 | component c of tuple t is component c of the whole transformed (and, if asked, normalised) source tuple t |
| PeriodicArray.GetTuple | Common/Core/vtkPeriodicDataArray.h:83-90 | on a coherent view the doubles returned are the transformed source tuple i; the cache holds i afterwards and stays coherent |
| PeriodicArray.GetValue | Common/Core/vtkPeriodicDataArray.h:100-104 | flat index idx reads component idx%k of transformed tuple idx/k |
| PeriodicArray.GetValueIsTupleMajor | Common/Core/vtkPeriodicDataArray.h:100-120 | GetValue at t*k + c equals component c of the typed tuple t, so the flat and tuple views agree |
| PeriodicArray.Refresh | Common/Core/vtkPeriodicDataArray.h:292-294 | after a read of tuple i, the cache holds exactly the transform of source tuple i, and the source and flag are untouched |
| PeriodicArray.SecondReadIsCacheHit | Common/Core/vtkPeriodicDataArray.h:292-294 | a second read of the same tuple does not recompute the transform and returns the same values |
| PeriodicArray.GetTuples | Common/Core/vtkPeriodicDataArray.h:51-53 | entry n is the tuple GetTuple would give for ids[n], read in order through the cache |
| PeriodicArray.GetTupleRange | Common/Core/vtkPeriodicDataArray.h:55-57 | the range p1..p2 includes both ends and gives p2-p1+1 tuples, entry n being tuple p1+n |
| PeriodicArray.CacheIsTransparent | Common/Core/vtkPeriodicDataArray.h:83-90 | two coherent views (each cache holding the transform of its own index under the current flag) over the same source and flag return the same values for any index sequence, whichever tuple each has cached |
| PeriodicArray.InitializeArray | Common/Core/vtkPeriodicDataArray.h:43-45 | binding sets the source and empties the cache without computing any tuple |
| PeriodicArray.InitializeArrayExposesTransformedSource | Common/Core/vtkPeriodicDataArray.h:20-24 | after binding, the view has the source's shape, nothing is cached yet, and typed tuple i is the (normalised, if asked) transform of source tuple i |
| PeriodicArray.ServedTuple | Common/Core/vtkPeriodicDataArray.h:292-294 | a typed read is served from the cache whenever the cached index is i, whatever flag the cached values were computed under, and equals the fresh transform whenever the view is coherent |
| PeriodicArray.SetNormalizeAsWritten | Common/Core/vtkPeriodicDataArray.h:252 | the set macro: only the flag changes, and the cached tuple (index and values) stays |
| PeriodicArray.StaleReadAfterSetNormalize | Common/Core/vtkPeriodicDataArray.h:252-294 | read tuple i, flip the flag with the set macro, read i again: when the normaliser changes that tuple the second read returns the old flag's values, so the view is no longer coherent |
| PeriodicArray.StaleReadExample | Common/Core/vtkPeriodicDataArray.h:252-294 | one tuple holding 3, read with Normalize off, then SetNormalize(true): the next read serves 3 where the normalised tuple is 1 |
| PeriodicArray.SetNormalize | Common/Core/vtkPeriodicDataArray.h:250-253 | the intended setter: the flag changes, the cache is dropped, and the view is coherent afterwards for any hooks it was ready for |
| PeriodicArray.SetNormalizeReadsFollowFlag | Common/Core/vtkPeriodicDataArray.h:250-253 | after the intended setter every served read, and the tuple cached by the next read, is the transform under the new flag |
| PeriodicArray.Mutate | Common/Core/vtkPeriodicDataArray.h:126-248 | every mutator is refused, leaving the view, its source and its tuple count unchanged |
| PeriodicArray.Ask | Common/Core/vtkPeriodicDataArray.h:59-98 | lookups, variant access and iterators report not implemented; Squeeze reports no effect; the view is unchanged |
| SelectionOperator.Initialize | Filters/Extraction/vtkSelectionOperator.cxx:40-54 | the node is kept, and the name is an exact copy of the one given, or none when none is given |
| SelectionOperator.CreateInsidednessArray | Filters/Extraction/vtkSelectionOperator.cxx:175-182 | the array is named "vtkInsidedness", with one component and n tuples |
| SelectionOperator.ToUnsignedInt | Filters/Extraction/vtkSelectionOperator.cxx:154 | the cast lands in the unsigned 32-bit range and is the identity on that range |
| SelectionOperator.SkipBlock | Filters/Extraction/vtkSelectionOperator.cxx:150-171 | a block is skipped iff one of the three present properties, cast to unsigned int, differs from the block's composite index, AMR level or AMR index; the order of the tests does not matter |
| SelectionOperator.SkipBlockIff | Filters/Extraction/vtkSelectionOperator.cxx:150-171 | a block is skipped iff some present property (composite index, level, index) differs from the block's value; absent properties never skip |
| SelectionOperator.CellsContainingSelectedPoints | Filters/Extraction/vtkSelectionOperator.cxx:188-194 | the result is null iff the input is not a dataset; otherwise there is one entry per cell in a "vtkInsidedness" array |
| SelectionOperator.ComputeCellsContainingSelectedPoints | Filters/Extraction/vtkSelectionOperator.cxx:185-213 | the loop computes exactly the functional cell mapping: null for a non-dataset, otherwise cell c is 1 iff at least one of its points has non-zero insidedness, else 0 |
| SelectionOperator.CellMapOfVerdicts | Filters/Extraction/vtkSelectionOperator.cxx:131-141 | mapping the oracle's point verdicts to cells gives 1 exactly for the cells with a point the oracle selects, and 0 for the others |
| SelectionOperator.ComputedOutput | Filters/Extraction/vtkSelectionOperator.cxx:73-89 | without containing cells, entry e is 1 iff the oracle selects element e, under the node's association; with containing cells, the array is under CELL and cell c is 1 iff the oracle selects one of its points, else 0; the array carries the operator's name |
| SelectionOperator.CompositeBlockOutput | Filters/Extraction/vtkSelectionOperator.cxx:110-143 | a skipped block gets an all-zero array under the node's association, whatever the block is; an unskipped block gets the computed array; either carries the operator's name and one component |
| SelectionOperator.ComputeForComposite | Filters/Extraction/vtkSelectionOperator.cxx:95-147 | the composite path returns true and produces one output per block, output i being the block output of block i (zeros when skipped, the computed array otherwise), each carrying the operator's name; only unskipped blocks need to support the cell mapping |
| SelectionOperator.SkippedBlockIsAllZero | Filters/Extraction/vtkSelectionOperator.cxx:120-123 | a skipped block gets an all-zero array, one entry per element, under the node's association, even when it is not a dataset |
| SelectionOperator.UnskippedBlockFollowsOracle | Filters/Extraction/vtkSelectionOperator.cxx:120-130 | outside containing-cells mode, an unskipped block's array keeps the node's association and has one entry per element, 1 iff the oracle selects that element |
| SelectionOperator.UnskippedBlockMapsToCells | Filters/Extraction/vtkSelectionOperator.cxx:131-141 | in containing-cells mode, an unskipped block's array is under CELL, with cell c 1 iff the oracle selects one of c's points |
| SelectionOperator.ComputeForDataObject | Filters/Extraction/vtkSelectionOperator.cxx:57-91 | a single object returns the per-element computation's flag; without containing cells entry e is 1 iff the oracle selects e, with them the array is under CELL and cell c is 1 iff the oracle selects one of its points |
| CompositeVelocityField.New | Filters/FlowPaths/vtkCompositeInterpolatedVelocityField.cxx:36-42 | a new field has no datasets, no cached dataset or cell, dataset index 0 and both counters 0 |
| CompositeVelocityField.AddDataSet | Filters/FlowPaths/vtkCompositeInterpolatedVelocityField.cxx:68-87 | a null dataset reports an error and changes nothing; otherwise the dataset is appended, and the weights length becomes the larger of the old length and the wanted size (the dataset's own when 0 is passed); the cached dataset, index and cell and the counters are kept |
| CompositeVelocityField.CopyParameters | Filters/FlowPaths/vtkCompositeInterpolatedVelocityField.cxx:49-65 | from another composite field, the dataset list and weights length are taken over; from anything else nothing changes; the cached dataset, index and cell and the counters are kept |
| CompositeVelocityField.SetLastCellId | Filters/FlowPaths/vtkCompositeInterpolatedVelocityField.cxx:90-106 | when neither the cell nor the index changes the field is untouched; otherwise both are stored and the cached dataset becomes dataset[index] |
| CompositeVelocityField.SetLastCellIdIdempotent | Filters/FlowPaths/vtkCompositeInterpolatedVelocityField.cxx:90-106 | setting the same cell and index twice is the same as setting them once |
| CompositeVelocityField.Scan | Filters/FlowPaths/vtkCompositeInterpolatedVelocityField.cxx:132-151 | the scan returns the first dataset, in index order, that is non-empty, not the cached one, contains the point in its bounds and locates it; none when no dataset does |
| CompositeVelocityField.Search | Filters/FlowPaths/vtkCompositeInterpolatedVelocityField.cxx:109-163 | exactly one counter grows by one. A hit on the start dataset (dataset 0 when none is cached) counts a hit, caches its cell, and sets the cached index to 0 when nothing was cached, else keeps it. A miss counts a miss and caches the first dataset the scan accepts. When nothing succeeds, the cell is -1 and dataset 0 at index 0 is cached |
| CompositeVelocityField.FunctionValues | Filters/FlowPaths/vtkCompositeInterpolatedVelocityField.cxx:109-163 | one counter grows by one, and on success the cached dataset locates the point in the cached cell |
| CompositeVelocityField.InsideTest | Filters/FlowPaths/vtkCompositeInterpolatedVelocityField.cxx:166-222 | the same protocol with cell finding as the locating step |
| CompositeVelocityField.SearchVerdictIgnoresCache | Filters/FlowPaths/vtkCompositeInterpolatedVelocityField.cxx:109-163 | with consistent oracles, the search succeeds iff some dataset of the list locates the point |
| CompositeVelocityField.VerdictSameForAnyCache | Filters/FlowPaths/vtkCompositeInterpolatedVelocityField.cxx:109-163 | two fields with the same datasets reach the same verdict, whatever each has cached |
| VariantSerialization.KindOfCode | Infovis/Boost/vtkVariantBoostSerialization.h:124-141 | the tag-to-kind table is the exact inverse of the kind-to-type-code table |
| VariantSerialization.ToChar | Infovis/Boost/vtkVariantBoostSerialization.h:76 | the tag lands in the signed char range and is unchanged when it already fits |
| VariantSerialization.Save | Infovis/Boost/vtkVariantBoostSerialization.h:65-107 | an invalid variant is the single tag 0; a string is the string code as a char followed by the string; a number is its type code as a char followed by the value in its own type; an unsupported type writes only its tag, an unknown tag, and no value |
| VariantSerialization.Load | Infovis/Boost/vtkVariantBoostSerialization.h:109-147 | tag 0 and unknown tags give an invalid variant, consuming only the tag; a non-char tag is a type error; the rest is a proper suffix; an unsupported variant never comes back |
| VariantSerialization.LoadSave | Infovis/Boost/vtkVariantBoostSerialization.h:65-147 | loading what was saved gives the variant back, with unsupported types coming back invalid, and leaves the following tokens |
| VariantSerialization.SupportedTagsSurviveTruncation | Infovis/Boost/vtkVariantBoostSerialization.h:76-102 | every supported type code fits in a char and is not an unknown tag |
| VariantSerialization.SaveAll | Infovis/Boost/vtkVariantBoostSerialization.h:173-176 | saving several variants writes at least one token per variant, starting with the first variant's own tokens; nothing for no variants |
| VariantSerialization.SaveAllAppend | Infovis/Boost/vtkVariantBoostSerialization.h:173-176 | saving one more variant appends exactly its tokens, so the archive is the saved variants in order |
| VariantSerialization.LoadN | Infovis/Boost/vtkVariantBoostSerialization.h:197-205 | a successful read of n values yields n of them (none when n is negative), leaving a suffix of the archive |
| VariantSerialization.LoadNSaveAll | Infovis/Boost/vtkVariantBoostSerialization.h:173-205 | reading back as many variants as were saved restores them all, in order |
| VariantSerialization.SaveArray | Infovis/Boost/vtkVariantBoostSerialization.h:159-177 | the name comes first (empty when null), then the tuple count n, then exactly the tokens of the values at flat indices 0..n-1, which for k > 1 components are only the first n of the n·k values |
| VariantSerialization.LoadArray | Infovis/Boost/vtkVariantBoostSerialization.h:179-206 | an empty name becomes no name; the k-component array is sized for the n tuples read (none when negative), so it has n·k slots; only the first n receive loaded values and the rest stay invalid; a short archive is exhausted |
| VariantSerialization.LoadArraySaveArray | Infovis/Boost/vtkVariantBoostSerialization.h:159-206 | loading a saved array into one of the same component count gives back the name (empty as null), the tuple count, the first n values restored in order, and n·(k-1) invalid slots |
| VariantSerialization.ArrayRoundTripIff | Infovis/Boost/vtkVariantBoostSerialization.h:159-206 | a well-formed array comes back equal to itself (up to restoring) iff every value past the first n restores to invalid |
| VariantSerialization.SingleComponentArrayRoundTrips | Infovis/Boost/vtkVariantBoostSerialization.h:159-206 | every single-component array round-trips: same name (an empty name comes back null) and every value restored in order |
| VariantSerialization.SaveArrayAllValues | Infovis/Boost/vtkVariantBoostSerialization.h:171-176 | the intended save: the name, the tuple count, then the tokens of all n·k values in flat order |
| VariantSerialization.LoadArrayAllValues | Infovis/Boost/vtkVariantBoostSerialization.h:197-205 | the intended load: sized for the n tuples read, it reads all n·k values into a well-formed k-component array |
| VariantSerialization.LoadArraySaveArrayAllValues | Infovis/Boost/vtkVariantBoostSerialization.h:159-206 | with every value written and read, each well-formed array round-trips into an array of its component count |
| VariantSerialization.SaveString | Infovis/Boost/vtkVariantBoostSerialization.h:47-51 | a string is written as exactly one string token holding it |
| VariantSerialization.LoadString | Infovis/Boost/vtkVariantBoostSerialization.h:53-59 | loading succeeds iff the next token is a string; it yields that string and the rest of the archive; an empty archive is exhausted |
| VariantSerialization.LoadStringSaveString | Infovis/Boost/vtkVariantBoostSerialization.h:47-59 | a string round-trips exactly |
| SegYReaderInternal.FirstTraceStartPos | IO/SegY/vtkSegYReaderInternal.cxx:38 | traces start after the 3200-byte textual and 400-byte binary headers |
| SegYReaderInternal.DecodeMultiplier | IO/SegY/vtkSegYReaderInternal.cxx:39-45 | the multiplier is always positive; a positive scalar multiplies, a negative one divides (its product with -m is 1), and 0 means 1 |
| SegYReaderInternal.ScaledCoordinate | IO/SegY/vtkSegYReaderInternal.cxx:152-154 | a positive scalar m multiplies the raw coordinate by m, 0 leaves it unchanged, and a negative m divides it by -m |
| SegYReaderInternal.NegativeScalarDivides | IO/SegY/vtkSegYReaderInternal.cxx:39-45 | with a negative scalar m, the scaled coordinate times -m gives back the raw coordinate |
| SegYReaderInternal.SetVerticalCRS | IO/SegY/vtkSegYReaderInternal.cxx:74-77 | the stored value is 0 or 1, and 1 iff the argument is positive |
| SegYReaderInternal.VerticalSign | IO/SegY/vtkSegYReaderInternal.cxx:285 | the sign is -1 iff the vertical CRS is 0, else +1 |
| SegYReaderInternal.VerticalSignAfterSet | IO/SegY/vtkSegYReaderInternal.cxx:74-77 | with any non-positive setting (heights, CRS 0) z decreases as the sample index grows; with a positive one (depths, CRS 1) it increases |
| SegYReaderInternal.ExportData3D | IO/SegY/vtkSegYReaderInternal.cxx:222-247 | the scalars are named "trace", with one component and d0*d1*d2 values |
| SegYReaderInternal.ExportData3DIndex | IO/SegY/vtkSegYReaderInternal.cxx:235-246 | the value at k*d1*d0 + j*d0 + i is sample k of trace j*d0 + i |
| SegYReaderInternal.SampleMajorIndex | IO/SegY/vtkSegYReaderInternal.cxx:262-269 | in the sample-major layout, the value at k*n + i is sample k of trace i |
| SegYReaderInternal.AppendSampleRow | IO/SegY/vtkSegYReaderInternal.cxx:265-268 | one pass of the inner loop extends a sample-major layout by one full row, one value per trace |
| SegYReaderInternal.AddScalars | IO/SegY/vtkSegYReaderInternal.cxx:251-273 | there are n*S values named "trace", and the value at k*n + i is sample k of trace i |
| SegYReaderInternal.ExportData2D | IO/SegY/vtkSegYReaderInternal.cxx:276-304 | a null grid gives nothing; otherwise the dimensions are (#traces, 1, samples), point k*n+i lies sign*k sample steps down, and the scalars are sample-major |
| SegYReaderInternal.ExportData2DVerticalStep | IO/SegY/vtkSegYReaderInternal.cxx:285-297 | the point for sample k of any trace lies at sign*k sample steps |
| SegYReader.New | IO/SegY/vtkSegYReader.cxx:34-52 | the defaults are no file, not 3D, no structured grid, SOURCE mode with bytes 73/77, heights, origin 0, spacing 1 and extent 0 |
| SegYReader.CoordBytePositions | IO/SegY/vtkSegYReader.cxx:104-127 | SOURCE gives 0-based (72,76), CDP gives (180,184), CUSTOM gives the configured bytes minus one, and only an unknown mode gives none |
| SegYReader.OutputTypeName | IO/SegY/vtkSegYReader.cxx:177-185 | the output type is vtkImageData iff 3D and not forced to a structured grid, else vtkStructuredGrid |
| SegYReader.RequestData | IO/SegY/vtkSegYReader.cxx:87-144 | a missing output info or output returns 0; an unknown mode returns 1 without loading traces; otherwise traces are loaded and exported by the output type |
| SegYReader.Scanned | IO/SegY/vtkSegYReaderInternal.cxx:186-214 | the scan sets Is3D; the extent is always written from the crossline, inline and sample counts; origin and spacing are written only for a 3-D file; every other setting is kept |
| SegYReader.RequestDataObjectAsWritten | IO/SegY/vtkSegYReader.cxx:188-229 | the request as written: it fails without a file name or an open file; otherwise it stores what the scan found (3-D flag, extent, and origin and spacing when 3-D) and keeps any existing output that is the type chosen from 3D alone; any other output is replaced by image data when 3D and not StructuredGrid, else by a structured grid |
| SegYReader.AsWrittenKeepsWrongType | IO/SegY/vtkSegYReader.cxx:211-226 | a 3D reader forced to a structured grid keeps an existing image-data output, whose class disagrees with the output type |
| SegYReader.RequestDataObject | IO/SegY/vtkSegYReader.cxx:188-229 | fails as the source does; on success it stores what the scan found as the as-written request does, the output's class is always the output type, and an existing output of that type is kept |
| SegYReader.AsWrittenAgreesWithoutStructuredGrid | IO/SegY/vtkSegYReader.cxx:211-226 | without the structured-grid option, the as-written and corrected requests coincide |
| ExecutionModel.PortOrZero | Wrapping/Python/vtkmodules/util/execution_model.py:92-95 | a true port is kept, and a false one (missing, None, 0) becomes 0 |
| ExecutionModel.FirstAlgorithm | Wrapping/Python/vtkmodules/util/execution_model.py:83-91 | the index found is the first algorithm argument, or the count when there is none |
| ExecutionModel.NewSelectPorts | Wrapping/Python/vtkmodules/util/execution_model.py:69-95 | ValueError iff not 2 or 3 arguments. The input port is the argument just before the first algorithm. The algorithm is the last algorithm argument. The output port is the last non-algorithm argument after it. False ports become 0 |
| ExecutionModel.SelectInputPortExample | Wrapping/Python/vtkmodules/util/execution_model.py:61 | select_ports(1, filter) selects input port 1 and output port 0 |
| ExecutionModel.SelectOutputPortExample | Wrapping/Python/vtkmodules/util/execution_model.py:63 | select_ports(source, 1) selects input port 0 and output port 1 |
| ExecutionModel.DetermineType | Wrapping/Python/vtkmodules/util/execution_model.py:168-175 | a Pipeline is PIPELINE; else anything with SetInputConnection is ALGORITHM; else a data object is DATA; else UNKNOWN |
| ExecutionModel.Compose | Wrapping/Python/vtkmodules/util/execution_model.py:126-166 | TypeError iff an operand is unknown; data on the right leaves the ends unset; otherwise the ends are the left head and the right tail, joined by one connection; using a pipeline with unset ends is an AttributeError |
| ExecutionModel.ComposeEnds | Wrapping/Python/vtkmodules/util/execution_model.py:135-159 | A>>B gives (A,B), P>>B gives (P.first,B), A>>P gives (A,P.last) and P>>Q gives (P.first,Q.last) |
| ExecutionModel.DataOnRightLeavesUnusablePipeline | Wrapping/Python/vtkmodules/util/execution_model.py:130-166 | algorithm >> data sets neither end, so composing that pipeline further raises AttributeError |
| ExecutionModel.ComposeAssociates | Wrapping/Python/vtkmodules/util/execution_model.py:135-159 | (A>>B)>>C and A>>(B>>C) have the same ends and make the same connections |
| ExecutionModel.ChainConnectsNeighbours | Wrapping/Python/vtkmodules/util/execution_model.py:135-143 | a chain of n algorithms runs from the first to the last and makes n-1 connections, each feeding algorithm i+1 from algorithm i |
| ExecutionModel.RemoveAll | Wrapping/Python/vtkmodules/util/execution_model.py:37 | the port loses all its connections, and other ports are untouched |
| ExecutionModel.AddAll | Wrapping/Python/vtkmodules/util/execution_model.py:38-39 | adding connections appends them in order on that port; other ports, the port count and repeatability are unchanged |
| ExecutionModel.Reconnect | Wrapping/Python/vtkmodules/util/execution_model.py:36-41 | after the update, the port has exactly its original connections again, and other ports are untouched |
| ExecutionModel.ConnectionsDuring | Wrapping/Python/vtkmodules/util/execution_model.py:11-32 | a sequence on a repeatable port gives one producer per item, in order; on another port it leaves the connections as they were; a single object, or none, gives one producer |
| ExecutionModel.Call | Wrapping/Python/vtkmodules/util/execution_model.py:4-53 | ValueError iff an input is given to an algorithm without input ports. Otherwise the update runs with the connections ConnectionsDuring gives, and afterwards every port's connections are restored. One output is returned unwrapped, and several as a tuple |
| PrefixCheck.StrNCmpFrom | Wrapping/Tools/vtkPrefixCheck.h:6 | a zero comparison means the strings agree at each position up to n, or an earlier NUL ended them |
| PrefixCheck.StrNCmp | Wrapping/Tools/vtkPrefixCheck.h:6 | strncmp against a whole NUL-free pattern is 0 iff the string starts with the pattern, and a 0 result always means agreement up to n or a shared earlier NUL |
| PrefixCheck.StrNCmpZeroIffPrefix | Wrapping/Tools/vtkPrefixCheck.h:6 | strncmp(s, p, len(p)) is 0 iff p is a prefix of s |
| PrefixCheck.Accepts | Wrapping/Tools/vtkPrefixCheck.h:13-15 | the macro accepts iff the name has at least three characters and starts "vtk", or the additional clause accepts ("msf" by default, or the build's own clause) |
| PrefixCheck.DefaultAcceptsIff | Wrapping/Tools/vtkPrefixCheck.h:6-15 | with the default extension, a name is accepted iff it has at least 3 characters and starts "vtk" or "msf" |
| PrefixCheck.CustomAcceptsIff | Wrapping/Tools/vtkPrefixCheck.h:8-15 | a predefined extension replaces the "msf" clause: accepted iff "vtk" prefix or the extension accepts |
| PrefixCheck.SuffixIrrelevant | Wrapping/Tools/vtkPrefixCheck.h:6-10 | only the first three characters matter; appending anything never changes the verdict |
| PrefixCheck.ShortAndUpperCaseRefused | Wrapping/Tools/vtkPrefixCheck.h:6-10 | names shorter than three characters, and names starting "VTK", are refused |

## Left out

- SoAArray.TupleIndexFromValueIndex: the source multiplies by a `double` reciprocal of the component count. The model uses exact integer division and remainder, which is the intended contract. Rounding for very large indices is not modelled.
- SoAArray.SetArray, SetNumberOfComponents, AllocateTuples, ReallocateTuples, New: their bodies live in `vtkSoADataArrayTemplate.txx`, which is not part of this model, and the declarations do not fix the following, so the model assumes them, one line each below. The "runtime exception" on growth is a `Failure(NotResizeable)` value.
- SoAArray.SetArray: refusing an out-of-range component is an assumption. The tuple count is assumed unchanged whatever `size` says; `size` and `deleteMethod` are not parameters, and `save` becomes a `borrowed` mark on the buffer.
- SoAArray.SetNumberOfComponents: the added component buffers are assumed to be allocated at the current tuple count and to read as `zero`; the declarations leave the contents of new memory unspecified.
- SoAArray.AllocateTuples: the fresh entries are assumed to read as `zero`; the declarations leave their contents unspecified.
- SoAArray.ReallocateTuples: the grown entries are assumed to read as `zero`; the declarations leave their contents unspecified.
- SoAArray.New: a new array is assumed to be resizeable.
- SoAArray: raw pointer access to the `Data` buffers and the delete-method enum are left out, because aliasing and memory release are not part of the functional model.
- PeriodicArray: `ComputeScalarRange`, `ComputeVectorRange`, `ComputePeriodicRange` and `InvalidateRange` are left out. They are floating point, their implementations are not part of this model, and the doc comment of `InvalidRange` contradicts its name. The range flag is not modelled.
- PeriodicArray: concrete `Transform` bodies (rotations) and the normaliser are parameters. The model requires only that they keep the tuple width. `Initialize()` (zero-filling) is folded into `InitializeArray`, and `GetActualMemorySize` and `PrintSelf` are left out.
- PeriodicArray.GetTuple, GetValue, GetTuples, GetTupleRange, CacheIsTransparent: they are stated for coherent views, whose cache holds the transform of its index under the current flag, as the intended `SetNormalize` keeps it. After the set macro as written the cache can be stale; what a read then returns is stated only by `ServedTuple` and `StaleReadAfterSetNormalize`.
- PeriodicArray.GetTuple: the `double*` variant returns a pointer into the cache that is valid until the next call, and `GetValueReference` returns a reference into it. The model returns values, because aliasing is not modelled.
- PeriodicArray.CacheIsTransparent, SecondReadIsCacheHit: the bound source array is held by value, but the source keeps a non-owning pointer to it. A write to that array through its own API after a read leaves the cached index in place, so the next read of that index returns the old transformed tuple (a stale-cache hazard in the source). Such writes are not modelled.
- AgnosticArrayHelpers: the warnings are values, not log output. The `double` conversion of a scalar is a parameter.
- SelectionOperator: concrete per-element insidedness (`ComputeSelectedElementsForBlock` and `ComputeSelectedElementsForDataObject` of subclasses) is an oracle. The composite's output blocks are assumed present, as the source asserts. When containing cells are requested, a block that is not skipped (and a single data object) must be a dataset whose cells name only its own points, because the source dereferences the mapping's result without a check and reads the point array at each cell point id. Skipped blocks carry no such requirement. `PrintSelf` is left out.
- CompositeVelocityField.Search, FunctionValues, InsideTest: they require a non-empty dataset list. The source reads dataset 0 after a failed scan, and dereferences a null dataset, even when the list is empty.
- CompositeVelocityField: point location (`FunctionValues(ds, …)`, `FindAndUpdateCell`) and `vtkMath::PointIsWithinBounds` are oracles. `SnapPointOnCell`, the cell prefetch in `SetLastCellId`, the find-cell strategies and the weights' contents are floating-point geometry. Only the weights length is tracked.
- CompositeVelocityField.CopyParameters: the superclass's part of `CopyParameters` is not part of this model.
- VariantSerialization: Boost archive internals are left out. The archive is a typed token sequence, and a `vtkIdType` count is its own token kind. Float and double payloads are opaque values compared for equality.
- VariantSerialization.Save: the type id of an unsupported variant is taken to be a positive id below 128 that names no supported type, as VTK's type ids are. An id whose `char` truncation hits a supported tag would make the source write a value after the tag; such ids are outside the model.
- VariantSerialization.LoadArray: the array loaded into is taken as freshly created with k components, so the slots that `SetNumberOfTuples(n)` creates beyond the n loaded values hold invalid (default) variants. The component count is a parameter, because the archive does not record it.
- VariantSerialization.Load: when an unknown tag is read, the source reads no value, so a value written after an unknown tag would desynchronise the archive. The model gives an invalid variant and consumes only the tag, as the source does.
- VariantSerialization: the VTK type codes (CHAR 2 … UNSIGNED_LONG_LONG 17, STRING 13) come from `vtkType.h`, which is not part of this model.
- SegYReaderInternal: file reading (`LoadFromFile`, `ReadHeader`, `LoadTraces`, and the trace-header scan of `Is3DComputeParameters`) is left out, and so are setting the image's extent, origin and spacing in `ExportData3D` (the dimensions are a parameter), the float x/y point coordinates in `ExportData2D` and the division of the sample interval by 1000. Traces are given as sequences of samples. What the scan writes into the reader (extent, and origin and spacing when 3-D) is modelled by `SegYReader.Scanned`.
- SegYReaderInternal.DecodeMultiplier, ScaledCoordinate, NegativeScalarDivides: they state real-number arithmetic. The source computes `-1.0 / multiplier` and the product with the coordinate in `double`, and that rounding is not modelled: for a multiplier of -10 the source scales 3 to 3 × 0.1 = 0.30000000000000004, where the model gives exactly 3/10.
- SegYReaderInternal.ExportData2D: the z coordinate is stated in units of one sample interval (`sign*k`), not in milliseconds.
- SegYReader: `RequestInformation` and the diagnostic `std::cout` output are left out. Whether the file opens, and what `Is3DComputeParameters` finds in it (the crossline, inline and sample counts, and the origin and spacing of a 3-D file), are parameters of `RequestDataObject`; how the scan derives them from the trace headers is not modelled. The values of `VTK_SEGY_SOURCE`/`CDP`/`CUSTOM` and `VTK_SEGY_VERTICAL_HEIGHTS` (0) come from a header that is not part of this model, so the modes are a datatype.
- ExecutionModel: actual pipeline execution (`update`), `Register`/`UnRegister` reference counting, `ShallowCopy` of the outputs, the debug `print`, and the `Output` helper class are left out. The outputs of `_call` are given as a sequence.
- ExecutionModel.Call: an input port number that the algorithm does not have is not checked. The source passes it on to VTK, and that behaviour is not part of this model.
- PrefixCheck: the macro expands textually. The model reads it as the intended disjunction, so operator-precedence effects at the use site are not modelled.

## Findings

| source | as written | input that shows it | evidently intended | confidence | as-written member | corrected member |
|---|---|---|---|---|---|---|
| IO/SegY/vtkSegYReader.cxx:211-226 | `RequestDataObject` keeps an existing output when it `IsA` the type chosen from `Is3D` alone, but creates a new one by `Is3D && !StructuredGrid` | `Is3D` true, `StructuredGrid` true, and an existing `vtkImageData` output: the image data is kept, although `FillOutputPortInformation` and `RequestData` expect a `vtkStructuredGrid` | test the existing output against the same type that is created (`OutputTypeName`) | not executed | SegYReader.RequestDataObjectAsWritten (shown by SegYReader.AsWrittenKeepsWrongType) | SegYReader.RequestDataObject |
| Infovis/Boost/vtkVariantBoostSerialization.h:171-175 | the array `save` writes the tuple count n and then `GetValue(i)` for i < n, but `GetValue` takes a flat value index, so for k > 1 components only the first n of the n·k values are written, and `load` (h:197-205) reads back only n | a 2-component array with one tuple (1, 2): 1 is written and 2 is lost, and loading gives back (1, invalid) | write and read all n·k values, so every array round-trips into an array of its component count | not executed; the intent for multi-component arrays is inferred | VariantSerialization.SaveArray (shown by VariantSerialization.ArrayRoundTripIff) | VariantSerialization.SaveArrayAllValues (with VariantSerialization.LoadArrayAllValues, proved by VariantSerialization.LoadArraySaveArrayAllValues) |
| Common/Core/vtkPeriodicDataArray.h:252 | `SetNormalize` is a plain set macro: the flag changes but the one-tuple cache (`TempTupleIdx`, `TempScalarArray`) keeps the tuple transformed under the old flag | read tuple i with `Normalize` off, call `SetNormalize(true)`, read tuple i again: the cached, unnormalised tuple is returned (one tuple holding 3 is served as 3 where the normalised value is 1) | changing the flag invalidates the cache, so every read follows the current flag | not executed | PeriodicArray.SetNormalizeAsWritten (shown by PeriodicArray.StaleReadAfterSetNormalize and PeriodicArray.StaleReadExample) | PeriodicArray.SetNormalize |
