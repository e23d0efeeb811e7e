/**
 * The insidedness bookkeeping of a selection operator (vtkSelectionOperator):
 * which composite blocks a selection node applies to, the signed-char
 * "insidedness" array created for every block, and the mapping from selected
 * points to the cells that contain them.  Deciding whether one element is
 * inside the selection belongs to concrete operators and is an oracle here.
 */
module SelectionOperator {
  import opened Wrappers

  /** `VTK_UNSIGNED_INT_MAX`, the level and index given to a block of a non-AMR composite. */
  const UnsignedIntMax: nat := 0xFFFF_FFFF

  /** `static_cast<unsigned int>` of a property value: reduction modulo 2^32. */
  function ToUnsignedInt(x: int): (r: nat)
    ensures r <= UnsignedIntMax
    ensures 0 <= x <= UnsignedIntMax ==> r == x
  {
    x % 0x1_0000_0000
  }

  /** The attribute association the node's field type converts to. */
  datatype Association = Point | Cell | OtherAssociation(code: int)

  /** The three selection properties that restrict a node to particular blocks. */
  datatype BlockKey = CompositeIndex | HierarchicalLevel | HierarchicalIndex

  /** A selection node: its association, the block-restricting properties it has, and CONTAINING_CELLS if set. */
  datatype Node = Node(association: Association, properties: map<BlockKey, int>, containingCells: Option<int>)

  datatype Operator = Operator(node: Node, insidednessArrayName: Option<string>)

  /** A signed-char data array: name (`None` for null), component count and values. */
  datatype Insidedness = Insidedness(name: Option<string>, numComponents: nat, values: seq<int>)

  /**
   * One input block: whether it is a vtkDataSet, its element count per
   * association, the point ids of each cell, its flat index in the composite,
   * and its AMR level and index when the composite is AMR.
   */
  datatype Block = Block(isDataSet: bool, counts: map<Association, nat>, cellPoints: seq<seq<nat>>,
                         flatIndex: nat, amr: Option<(nat, nat)>)

  /** What the operator adds to one output block: an array attached under an association. */
  datatype BlockOutput = BlockOutput(association: Association, insidedness: Insidedness)

  /** `GetNumberOfElements(association)`. */
  function NumberOfElements(b: Block, a: Association): nat {
    if a in b.counts then b.counts[a] else 0
  }

  /** A data set's cells are listed in `cellPoints` and refer only to its own points. */
  predicate WellFormedDataSet(b: Block) {
    b.isDataSet && NumberOfElements(b, Cell) == |b.cellPoints| &&
    forall c, i :: 0 <= c < |b.cellPoints| && 0 <= i < |b.cellPoints[c]| ==> b.cellPoints[c][i] < NumberOfElements(b, Point)
  }

  /** `Initialize`: keeps the node and a copy of the name, or null when no name is given. */
  method Initialize(node: Node, name: Option<string>) returns (op: Operator)
    ensures op.node == node && op.insidednessArrayName == name
  {
    op := Operator(node, name);
  }

  /** `CreateInsidednessArray(n)`: one component, `n` tuples, named "vtkInsidedness". */
  function CreateInsidednessArray(n: nat): (r: Insidedness)
    ensures r.name == Some("vtkInsidedness") && r.numComponents == 1 && |r.values| == n
  {
    Insidedness(Some("vtkInsidedness"), 1, seq(n, _ => 0))
  }

  /** The block's own value for one of the restricting properties. */
  function BlockValue(key: BlockKey, compositeIndex: nat, amrLevel: nat, amrIndex: nat): nat {
    match key
    case CompositeIndex => compositeIndex
    case HierarchicalLevel => amrLevel
    case HierarchicalIndex => amrIndex
  }

  /** `SkipBlock`: the three property tests in the source's order. */
  function SkipBlock(node: Node, compositeIndex: nat, amrLevel: nat, amrIndex: nat): (r: bool)
    ensures r <==>
      || (CompositeIndex in node.properties && ToUnsignedInt(node.properties[CompositeIndex]) != compositeIndex)
      || (HierarchicalLevel in node.properties && ToUnsignedInt(node.properties[HierarchicalLevel]) != amrLevel)
      || (HierarchicalIndex in node.properties && ToUnsignedInt(node.properties[HierarchicalIndex]) != amrIndex)
  {
    var p := node.properties;
    if CompositeIndex in p && ToUnsignedInt(p[CompositeIndex]) != compositeIndex then true
    else if HierarchicalLevel in p && ToUnsignedInt(p[HierarchicalLevel]) != amrLevel then true
    else if HierarchicalIndex in p && ToUnsignedInt(p[HierarchicalIndex]) != amrIndex then true
    else false
  }

  /** A block is skipped exactly when some property the node has disagrees with the block's value; absent properties never skip. */
  lemma SkipBlockIff(node: Node, compositeIndex: nat, amrLevel: nat, amrIndex: nat)
    ensures SkipBlock(node, compositeIndex, amrLevel, amrIndex) <==>
      exists key :: key in node.properties &&
        ToUnsignedInt(node.properties[key]) != BlockValue(key, compositeIndex, amrLevel, amrIndex)
    ensures node.properties == map[] ==> !SkipBlock(node, compositeIndex, amrLevel, amrIndex)
  {
    var p := node.properties;
    if SkipBlock(node, compositeIndex, amrLevel, amrIndex) {
      if CompositeIndex in p && ToUnsignedInt(p[CompositeIndex]) != compositeIndex {
        assert BlockValue(CompositeIndex, compositeIndex, amrLevel, amrIndex) == compositeIndex;
      } else if HierarchicalLevel in p && ToUnsignedInt(p[HierarchicalLevel]) != amrLevel {
        assert BlockValue(HierarchicalLevel, compositeIndex, amrLevel, amrIndex) == amrLevel;
      } else {
        assert BlockValue(HierarchicalIndex, compositeIndex, amrLevel, amrIndex) == amrIndex;
      }
    }
  }

  /** Cell `c` has a point whose insidedness is non-zero. */
  predicate HasSelectedPoint(b: Block, selected: seq<int>, c: nat)
    requires c < |b.cellPoints|
    requires forall i :: 0 <= i < |b.cellPoints[c]| ==> b.cellPoints[c][i] < |selected|
  {
    exists i :: 0 <= i < |b.cellPoints[c]| && selected[b.cellPoints[c][i]] != 0
  }

  /** Point ids of every cell index into the point insidedness values. */
  predicate PointIdsInRange(b: Block, selected: seq<int>) {
    forall c, i :: 0 <= c < |b.cellPoints| && 0 <= i < |b.cellPoints[c]| ==> b.cellPoints[c][i] < |selected|
  }

  /** Insidedness of the cells: 1 for a cell with any selected point, else 0; null for a non-dataset. */
  function CellsContainingSelectedPoints(b: Block, selectedPoints: Insidedness): (r: Option<Insidedness>)
    requires b.isDataSet ==> PointIdsInRange(b, selectedPoints.values)
    ensures r.None? <==> !b.isDataSet
    ensures r.Some? ==> r.value.name == Some("vtkInsidedness") && r.value.numComponents == 1
    ensures r.Some? ==> |r.value.values| == |b.cellPoints|
  {
    if !b.isDataSet then None
    else
      Some(Insidedness(Some("vtkInsidedness"), 1,
        seq(|b.cellPoints|, c requires 0 <= c < |b.cellPoints| =>
          if HasSelectedPoint(b, selectedPoints.values, c) then 1 else 0)))
  }

  /**
   * `ComputeCellsContainingSelectedPoints`: runs through the cells and marks
   * a cell 1 as soon as one of its points is selected, 0 when none is.
   */
  method ComputeCellsContainingSelectedPoints(b: Block, selectedPoints: Insidedness) returns (r: Option<Insidedness>)
    requires b.isDataSet ==> PointIdsInRange(b, selectedPoints.values)
    ensures r == CellsContainingSelectedPoints(b, selectedPoints)
    ensures r.None? <==> !b.isDataSet
    ensures r.Some? ==> r.value.name == Some("vtkInsidedness") && r.value.numComponents == 1
    ensures r.Some? ==> |r.value.values| == |b.cellPoints|
    ensures r.Some? ==> forall c :: 0 <= c < |b.cellPoints| ==>
      (r.value.values[c] == 1 <==> HasSelectedPoint(b, selectedPoints.values, c)) &&
      (r.value.values[c] == 0 <==> !HasSelectedPoint(b, selectedPoints.values, c))
  {
    if !b.isDataSet {
      return None;
    }
    var numCells := |b.cellPoints|;
    var cells := CreateInsidednessArray(numCells);
    var values := cells.values;
    var cellId := 0;
    while cellId < numCells
      invariant 0 <= cellId <= numCells && |values| == numCells
      invariant forall c :: 0 <= c < cellId ==>
        (values[c] == 1 <==> HasSelectedPoint(b, selectedPoints.values, c)) &&
        (values[c] == 0 <==> !HasSelectedPoint(b, selectedPoints.values, c))
    {
      var pts := b.cellPoints[cellId];
      var found := 0;
      var i := 0;
      // the scan stops at the first selected point, as the source's `break` does
      while i < |pts| && found == 0
        invariant 0 <= i <= |pts|
        invariant found == 0 || found == 1
        invariant found == 1 <==> exists j :: 0 <= j < i && selectedPoints.values[pts[j]] != 0
      {
        if selectedPoints.values[pts[i]] != 0 {
          found := 1;
        }
        i := i + 1;
      }
      values := values[cellId := found];
      cellId := cellId + 1;
    }
    assert values == CellsContainingSelectedPoints(b, selectedPoints).value.values;
    return Some(cells.(values := values));
  }

  /** The node asks for the cells containing the selected points. */
  predicate WantsContainingCells(node: Node) {
    node.association == Point && node.containingCells == Some(1)
  }

  /** Whether the mapping to containing cells can run on this block (the source dereferences its result). */
  predicate CellMappingDefined(node: Node, b: Block) {
    WantsContainingCells(node) ==> WellFormedDataSet(b)
  }

  /** The verdict of the element oracle as an insidedness value. */
  function Verdict(inside: (Block, nat) -> bool, b: Block, e: nat): int {
    if inside(b, e) then 1 else 0
  }

  /** Some point of cell `c` is inside according to the oracle. */
  predicate CellTouchesInside(b: Block, inside: (Block, nat) -> bool, c: nat)
    requires c < |b.cellPoints|
  {
    exists p :: 0 <= p < |b.cellPoints[c]| && inside(b, b.cellPoints[c][p])
  }

  /** Mapping the oracle's point verdicts to cells marks exactly the cells touching an inside point. */
  lemma CellMapOfVerdicts(b: Block, inside: (Block, nat) -> bool, points: Insidedness)
    requires WellFormedDataSet(b)
    requires points.values == seq(NumberOfElements(b, Point), e requires 0 <= e < NumberOfElements(b, Point) => Verdict(inside, b, e))
    ensures PointIdsInRange(b, points.values)
    ensures forall c :: 0 <= c < |b.cellPoints| ==>
      CellsContainingSelectedPoints(b, points).value.values[c] == (if CellTouchesInside(b, inside, c) then 1 else 0)
  {
    forall c | 0 <= c < |b.cellPoints|
      ensures CellsContainingSelectedPoints(b, points).value.values[c] == (if CellTouchesInside(b, inside, c) then 1 else 0)
    {
      assert forall p :: 0 <= p < |b.cellPoints[c]| ==>
        (points.values[b.cellPoints[c][p]] != 0 <==> inside(b, b.cellPoints[c][p]));
    }
  }

  /**
   * The array attached for a block that is not skipped: the per-element
   * oracle's verdicts, turned into cell insidedness when the node asks for
   * containing cells (the association then switches from points to cells).
   * Every array carries the operator's name.
   */
  function ComputedOutput(op: Operator, b: Block, inside: (Block, nat) -> bool): (r: BlockOutput)
    requires CellMappingDefined(op.node, b)
    ensures r.insidedness.name == op.insidednessArrayName && r.insidedness.numComponents == 1
    ensures WantsContainingCells(op.node) ==>
      && r.association == Cell && |r.insidedness.values| == |b.cellPoints|
      && forall c :: 0 <= c < |b.cellPoints| ==>
           r.insidedness.values[c] == (if CellTouchesInside(b, inside, c) then 1 else 0)
    ensures !WantsContainingCells(op.node) ==>
      && r.association == op.node.association
      && |r.insidedness.values| == NumberOfElements(b, op.node.association)
      && forall e :: 0 <= e < |r.insidedness.values| ==> r.insidedness.values[e] == Verdict(inside, b, e)
  {
    var assoc := op.node.association;
    var n := NumberOfElements(b, assoc);
    var points := CreateInsidednessArray(n).(name := op.insidednessArrayName,
      values := seq(n, e requires 0 <= e < n => Verdict(inside, b, e)));
    if WantsContainingCells(op.node) then
      CellMapOfVerdicts(b, inside, points);
      var cells := CellsContainingSelectedPoints(b, points).value;
      BlockOutput(Cell, cells.(name := op.insidednessArrayName))
    else
      BlockOutput(assoc, points)
  }

  /** The AMR level the iterator reports for a block: `VTK_UNSIGNED_INT_MAX` outside an AMR composite. */
  function AmrLevel(b: Block): nat {
    if b.amr.Some? then b.amr.value.0 else UnsignedIntMax
  }

  /** The AMR index the iterator reports for a block: `VTK_UNSIGNED_INT_MAX` outside an AMR composite. */
  function AmrIndex(b: Block): nat {
    if b.amr.Some? then b.amr.value.1 else UnsignedIntMax
  }

  /** The node's properties skip this block of the composite. */
  predicate Skipped(node: Node, b: Block) {
    SkipBlock(node, b.flatIndex, AmrLevel(b), AmrIndex(b))
  }

  /** The output for one block of a composite: zeros for a skipped block, the computed array otherwise. */
  function CompositeBlockOutput(op: Operator, b: Block, inside: (Block, nat) -> bool): (r: BlockOutput)
    requires !Skipped(op.node, b) ==> CellMappingDefined(op.node, b)
    ensures r.insidedness.name == op.insidednessArrayName && r.insidedness.numComponents == 1
    ensures Skipped(op.node, b) ==>
      && r.association == op.node.association
      && |r.insidedness.values| == NumberOfElements(b, op.node.association)
      && forall e :: 0 <= e < |r.insidedness.values| ==> r.insidedness.values[e] == 0
    ensures !Skipped(op.node, b) ==> r == ComputedOutput(op, b, inside)
  {
    if Skipped(op.node, b) then
      var n := NumberOfElements(b, op.node.association);
      BlockOutput(op.node.association, CreateInsidednessArray(n).(name := op.insidednessArrayName, values := seq(n, _ => 0)))
    else
      ComputedOutput(op, b, inside)
  }

  /** `ComputeSelectedElementsForCompositeDataSet`: one output per block, in order, and always success. */
  function ComputeForComposite(op: Operator, blocks: seq<Block>, inside: (Block, nat) -> bool): (r: (bool, seq<BlockOutput>))
    requires forall i :: 0 <= i < |blocks| && !Skipped(op.node, blocks[i]) ==> CellMappingDefined(op.node, blocks[i])
    ensures r.0 && |r.1| == |blocks|
    ensures forall i :: 0 <= i < |blocks| ==> r.1[i].insidedness.name == op.insidednessArrayName
    ensures forall i :: 0 <= i < |blocks| ==> r.1[i] == CompositeBlockOutput(op, blocks[i], inside)
  {
    (true, seq(|blocks|, i requires 0 <= i < |blocks| => CompositeBlockOutput(op, blocks[i], inside)))
  }

  /** A skipped block receives an all-zero array, one entry per element, under the node's association, whatever the block is. */
  lemma SkippedBlockIsAllZero(op: Operator, blocks: seq<Block>, inside: (Block, nat) -> bool, i: nat)
    requires forall j :: 0 <= j < |blocks| && !Skipped(op.node, blocks[j]) ==> CellMappingDefined(op.node, blocks[j])
    requires i < |blocks| && Skipped(op.node, blocks[i])
    ensures var out := ComputeForComposite(op, blocks, inside).1[i];
      && out.association == op.node.association
      && |out.insidedness.values| == NumberOfElements(blocks[i], op.node.association)
      && forall e :: 0 <= e < |out.insidedness.values| ==> out.insidedness.values[e] == 0
  {
  }

  /** In containing-cells mode an unskipped block's array is attached to cells, 1 exactly for cells with a selected point. */
  lemma UnskippedBlockMapsToCells(op: Operator, blocks: seq<Block>, inside: (Block, nat) -> bool, i: nat, c: nat)
    requires forall j :: 0 <= j < |blocks| && !Skipped(op.node, blocks[j]) ==> CellMappingDefined(op.node, blocks[j])
    requires i < |blocks| && WantsContainingCells(op.node) && c < |blocks[i].cellPoints|
    requires !Skipped(op.node, blocks[i])
    ensures var out := ComputeForComposite(op, blocks, inside).1[i];
      && out.association == Cell
      && (out.insidedness.values[c] == 1 <==>
            exists p :: 0 <= p < |blocks[i].cellPoints[c]| && inside(blocks[i], blocks[i].cellPoints[c][p]))
  {
  }

  /** Outside containing-cells mode an unskipped block's array keeps the node's association, 1 exactly for the elements the oracle selects. */
  lemma UnskippedBlockFollowsOracle(op: Operator, blocks: seq<Block>, inside: (Block, nat) -> bool, i: nat, e: nat)
    requires forall j :: 0 <= j < |blocks| && !Skipped(op.node, blocks[j]) ==> CellMappingDefined(op.node, blocks[j])
    requires i < |blocks| && !WantsContainingCells(op.node) && !Skipped(op.node, blocks[i])
    requires e < NumberOfElements(blocks[i], op.node.association)
    ensures var out := ComputeForComposite(op, blocks, inside).1[i];
      && out.association == op.node.association
      && |out.insidedness.values| == NumberOfElements(blocks[i], op.node.association)
      && (out.insidedness.values[e] == 1 <==> inside(blocks[i], e))
  {
  }

  /**
   * `ComputeSelectedElements` for a single data object: the oracle's result
   * flag is returned and the array is attached as for an unskipped block.
   */
  function ComputeForDataObject(op: Operator, b: Block, inside: (Block, nat) -> bool, computed: bool): (r: (bool, BlockOutput))
    requires CellMappingDefined(op.node, b)
    ensures r.0 == computed
    ensures r.1.insidedness.name == op.insidednessArrayName && r.1.insidedness.numComponents == 1
    ensures WantsContainingCells(op.node) ==>
      && r.1.association == Cell && |r.1.insidedness.values| == |b.cellPoints|
      && forall c :: 0 <= c < |b.cellPoints| ==>
           (r.1.insidedness.values[c] == 1 <==> CellTouchesInside(b, inside, c))
    ensures !WantsContainingCells(op.node) ==>
      && r.1.association == op.node.association
      && |r.1.insidedness.values| == NumberOfElements(b, op.node.association)
      && forall e :: 0 <= e < |r.1.insidedness.values| ==> (r.1.insidedness.values[e] == 1 <==> inside(b, e))
  {
    (computed, ComputedOutput(op, b, inside))
  }
}
