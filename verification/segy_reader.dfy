/**
 * The SEG-Y reader algorithm (vtkSegYReader): its defaults, the choice of the
 * trace-header bytes holding a trace's X/Y coordinates, and the choice of
 * output data type.  Reading the file is left to parameters: whether the file
 * opens, and what the scan of its trace headers found.
 */
module SegYReader {
  import opened Wrappers
  import SegYReaderInternal

  /** How trace coordinates are read: from the source, from the CDP, at custom bytes, or an unknown mode code. */
  datatype CoordMode = Source | Cdp | Custom | UnknownMode(code: int)

  /** The vertical coordinate reference values; heights is the default. */
  const VerticalHeights := 0
  const VerticalDepths := 1

  /** The reader's settings and what it learned about the file. */
  datatype Reader = Reader(
    fileName: Option<string>,
    is3D: bool,
    structuredGrid: bool,
    xyCoordMode: CoordMode,
    xCoordByte: int,
    yCoordByte: int,
    verticalCRS: int,
    dataOrigin: seq<real>,
    dataSpacing: seq<real>,
    dataExtent: seq<int>)

  /** The 1-based trace-header bytes of SEG-Y rev 1, section 4: source X/Y at 73/77, CDP X/Y at 181/185. */
  const SourceXByte := 73
  const SourceYByte := 77
  const CdpXByte := 181
  const CdpYByte := 185

  /** A new reader: no file, 2-D, source coordinates at bytes 73/77, heights, unit spacing, zero origin and extent. */
  function New(): (r: Reader)
    ensures r.fileName.None? && !r.is3D && !r.structuredGrid
    ensures r.xyCoordMode == Source && r.xCoordByte == SourceXByte && r.yCoordByte == SourceYByte
    ensures r.verticalCRS == VerticalHeights
    ensures r.dataOrigin == [0.0, 0.0, 0.0] && r.dataSpacing == [1.0, 1.0, 1.0] && r.dataExtent == [0, 0, 0, 0, 0, 0]
  {
    Reader(None, false, false, Source, 73, 77, 0, [0.0, 0.0, 0.0], [1.0, 1.0, 1.0], [0, 0, 0, 0, 0, 0])
  }

  /**
   * The 0-based byte positions handed to the trace reader for the X and Y
   * coordinates: fixed for the source and CDP modes, the custom 1-based bytes
   * shifted down by one for the custom mode, and none for an unknown mode.
   */
  function CoordBytePositions(mode: CoordMode, xCoordByte: int, yCoordByte: int): (r: Option<(int, int)>)
    ensures mode.Source? ==> r == Some((SourceXByte - 1, SourceYByte - 1))
    ensures mode.Cdp? ==> r == Some((CdpXByte - 1, CdpYByte - 1))
    ensures mode.Custom? ==> r == Some((xCoordByte - 1, yCoordByte - 1))
    ensures r.None? <==> mode.UnknownMode?
  {
    match mode
    case Source => Some((72, 76))
    case Cdp => Some((180, 184))
    case Custom => Some((xCoordByte - 1, yCoordByte - 1))
    case UnknownMode(_) => None
  }

  /** The data type name of the output port: image data for a 3-D volume unless a structured grid is asked for. */
  function OutputTypeName(r: Reader): (name: string)
    ensures name == "vtkImageData" || name == "vtkStructuredGrid"
    ensures name == "vtkImageData" <==> r.is3D && !r.structuredGrid
  {
    if r.is3D && !r.structuredGrid then "vtkImageData" else "vtkStructuredGrid"
  }

  /** The export path `RequestData` takes. */
  datatype Export = Export3D | Export2D

  /**
   * What `RequestData` does: its return value, the vertical reference handed
   * to the internal reader, the byte positions handed to it, whether the
   * traces are loaded, and the export path.
   */
  datatype DataRequest = DataRequest(ret: int, verticalCRS: Option<int>, bytePositions: Option<(int, int)>,
                                     loadsTraces: bool, exportPath: Option<Export>)

  /**
   * `RequestData`: without output information or an output object it
   * returns 0 and does nothing.  Otherwise it passes on the vertical
   * reference, chooses the coordinate bytes (an unknown mode is an error
   * that returns 1 without loading traces), loads the traces and exports
   * them as an image when the output type is image data, else as a grid.
   */
  function RequestData(r: Reader, hasOutInfo: bool, hasOutput: bool): (d: DataRequest)
    ensures !hasOutInfo || !hasOutput ==> d == DataRequest(0, None, None, false, None)
    ensures hasOutInfo && hasOutput ==> d.ret == 1 && d.verticalCRS == Some(SegYReaderInternal.SetVerticalCRS(r.verticalCRS))
    ensures hasOutInfo && hasOutput && r.xyCoordMode.UnknownMode? ==> !d.loadsTraces && d.exportPath.None? && d.bytePositions.None?
    ensures hasOutInfo && hasOutput && !r.xyCoordMode.UnknownMode? ==>
      && d.loadsTraces
      && d.bytePositions == CoordBytePositions(r.xyCoordMode, r.xCoordByte, r.yCoordByte)
      && d.exportPath == Some(if OutputTypeName(r) == "vtkImageData" then Export3D else Export2D)
  {
    if !hasOutInfo || !hasOutput then DataRequest(0, None, None, false, None)
    else
      var crs := Some(SegYReaderInternal.SetVerticalCRS(r.verticalCRS));
      match CoordBytePositions(r.xyCoordMode, r.xCoordByte, r.yCoordByte)
      case None => DataRequest(1, crs, None, false, None)
      case Some(p) =>
        DataRequest(1, crs, Some(p), true, Some(if r.is3D && !r.structuredGrid then Export3D else Export2D))
  }

  /**
   * What scanning the trace headers finds: the crossline count of the first
   * inline, the inline count, the samples per trace, and, for a 3-D volume
   * only, the origin and spacing derived from the first traces' coordinates
   * and the sample interval.
   */
  datatype Scan = Scan(crosslineCount: int, inlineCount: int, sampleCount: int, volume: Option<(seq<real>, seq<real>)>)

  /**
   * `Is3DComputeParameters(DataExtent, DataOrigin, DataSpacing)`, stored into
   * the reader: the file is 3-D exactly when a second inline was found; the
   * extent is always written from the counts, while the origin and the
   * spacing are written only for a 3-D file and otherwise keep their values.
   * Nothing else about the reader changes.
   */
  function Scanned(r: Reader, scan: Scan): (q: Reader)
    ensures q.is3D <==> scan.volume.Some?
    ensures q.dataExtent == [0, scan.crosslineCount - 1, 0, scan.inlineCount - 1, 0, scan.sampleCount - 1]
    ensures scan.volume.Some? ==> q.dataOrigin == scan.volume.value.0 && q.dataSpacing == scan.volume.value.1
    ensures scan.volume.None? ==> q.dataOrigin == r.dataOrigin && q.dataSpacing == r.dataSpacing
    ensures q.fileName == r.fileName && q.structuredGrid == r.structuredGrid && q.xyCoordMode == r.xyCoordMode
    ensures q.xCoordByte == r.xCoordByte && q.yCoordByte == r.yCoordByte && q.verticalCRS == r.verticalCRS
  {
    var extent := [0, scan.crosslineCount - 1, 0, scan.inlineCount - 1, 0, scan.sampleCount - 1];
    match scan.volume
    case None => r.(is3D := false, dataExtent := extent)
    case Some((origin, spacing)) => r.(is3D := true, dataExtent := extent, dataOrigin := origin, dataSpacing := spacing)
  }

  /** The kind of data set attached to the output port, if any. */
  datatype OutputKind = ImageData | StructuredGrid | OtherDataSet

  /** `IsA(name)` for the output kinds. */
  function IsA(k: OutputKind, name: string): bool {
    match k
    case ImageData => name == "vtkImageData"
    case StructuredGrid => name == "vtkStructuredGrid"
    case OtherDataSet => false
  }

  /** The class name of an output kind, for the two kinds the reader creates. */
  function ClassName(k: OutputKind): string {
    match k
    case ImageData => "vtkImageData"
    case StructuredGrid => "vtkStructuredGrid"
    case OtherDataSet => "vtkDataSet"
  }

  /** What `RequestDataObject` leaves behind: its return value, the reader, and the output port's data set. */
  datatype ObjectRequest = ObjectRequest(ret: int, reader: Reader, output: Option<OutputKind>)

  /** The output a request installs when the existing one fails the type test `testName`. */
  function ReplaceUnless(r: Reader, output: Option<OutputKind>, testName: string): Option<OutputKind> {
    if output.None? || !IsA(output.value, testName) then
      Some(if r.is3D && !r.structuredGrid then ImageData else StructuredGrid)
    else output
  }

  /**
   * `RequestDataObject` as written: without a file name, or when the file
   * does not open, it returns 0 and changes nothing.  Otherwise it records
   * what the scan found (3-D or not, extent, origin and spacing), and
   * replaces the output unless it already is a
   * data set of the type chosen by `is3D` alone; a replacement is of the type
   * chosen by `is3D && !structuredGrid`.
   */
  function RequestDataObjectAsWritten(r: Reader, opens: bool, scan: Scan, output: Option<OutputKind>): (q: ObjectRequest)
    ensures r.fileName.None? || !opens ==> q == ObjectRequest(0, r, output)
    ensures r.fileName.Some? && opens ==> q.ret == 1 && q.reader == Scanned(r, scan) && q.output.Some?
    ensures r.fileName.Some? && opens && output.Some? && IsA(output.value, if scan.volume.Some? then "vtkImageData" else "vtkStructuredGrid")
      ==> q.output == output
    ensures r.fileName.Some? && opens && (output.None? || !IsA(output.value, if scan.volume.Some? then "vtkImageData" else "vtkStructuredGrid"))
      ==> q.output == Some(if q.reader.is3D && !q.reader.structuredGrid then ImageData else StructuredGrid)
  {
    if r.fileName.None? || !opens then ObjectRequest(0, r, output)
    else
      var r' := Scanned(r, scan);
      var testName := if r'.is3D then "vtkImageData" else "vtkStructuredGrid";
      ObjectRequest(1, r', ReplaceUnless(r', output, testName))
  }

  /**
   * A 3-D file read as a structured grid, with image data already on the
   * output: the request keeps the image data although the output port
   * declares a structured grid.
   */
  lemma AsWrittenKeepsWrongType()
    ensures var r := New().(fileName := Some("f.sgy"), structuredGrid := true);
      var q := RequestDataObjectAsWritten(r, true, Scan(2, 2, 1, Some(([0.0, 0.0, 0.0], [1.0, 1.0, 1.0]))), Some(ImageData));
      q.output == Some(ImageData) && OutputTypeName(q.reader) == "vtkStructuredGrid"
  {
  }

  /**
   * `RequestDataObject` with the type test and the creation agreeing on
   * `OutputTypeName`: on success the output is always a data set of the
   * type the output port declares, and an output already of that type is
   * kept.
   */
  function RequestDataObject(r: Reader, opens: bool, scan: Scan, output: Option<OutputKind>): (q: ObjectRequest)
    ensures r.fileName.None? || !opens ==> q == ObjectRequest(0, r, output)
    ensures r.fileName.Some? && opens ==> q.ret == 1 && q.reader == Scanned(r, scan)
    ensures r.fileName.Some? && opens ==> q.output.Some? && ClassName(q.output.value) == OutputTypeName(q.reader)
    ensures r.fileName.Some? && opens && output.Some? && IsA(output.value, OutputTypeName(q.reader)) ==> q.output == output
  {
    if r.fileName.None? || !opens then ObjectRequest(0, r, output)
    else
      var r' := Scanned(r, scan);
      ObjectRequest(1, r', ReplaceUnless(r', output, OutputTypeName(r')))
  }

  /** The two versions differ only when a structured grid is asked for: otherwise they agree on every input. */
  lemma AsWrittenAgreesWithoutStructuredGrid(r: Reader, opens: bool, scan: Scan, output: Option<OutputKind>)
    requires !r.structuredGrid
    ensures RequestDataObjectAsWritten(r, opens, scan, output) == RequestDataObject(r, opens, scan, output)
  {
  }
}
