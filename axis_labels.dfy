/** The world-space axis labels of the VR scene: one processLabel above each
    column (processStep) and one segmentLabel left of each row (non-null
    segment), taken from the first panel of that column or row that carries
    one, placed relative to the semantic layout's positions. */
module AxisLabels {
  import opened Panels
  import GrammarLayout
  import MockData

  datatype LabelAxis = XAxis | YAxis
  datatype AxisLabel = AxisLabel(text: string, position: Vec3, axis: LabelAxis)

  const ABOVE_COLUMN: real := 0.8
  const LEFT_OF_ROW: real := 1.2

  /** `Math.max` of the y of every panel in column `step` (None for an empty column). */
  function ColumnTop(panels: seq<Panel>, positions: seq<PanelPosition>, step: int): (r: Option<real>)
    requires |positions| == |panels|
    ensures r.Some? <==> exists j :: 0 <= j < |panels| && panels[j].semantic.processStep == step
    ensures r.Some? ==> forall j :: 0 <= j < |panels| && panels[j].semantic.processStep == step
                          ==> positions[j].position.y <= r.value
    ensures r.Some? ==> exists j :: 0 <= j < |panels| && panels[j].semantic.processStep == step
                          && positions[j].position.y == r.value
  {
    if |panels| == 0 then None
    else
      var n := |panels| - 1;
      var rest := ColumnTop(panels[..n], positions[..n], step);
      assert forall j :: 0 <= j < n ==> panels[..n][j] == panels[j] && positions[..n][j] == positions[j];
      var y := positions[n].position.y;
      if panels[n].semantic.processStep != step then rest
      else if rest.Some? && rest.value >= y then rest
      else Some(y)
  }

  /** `Math.min` of the x of every panel in row `segment` (None for an empty row). */
  function RowLeft(panels: seq<Panel>, positions: seq<PanelPosition>, segment: int): (r: Option<real>)
    requires |positions| == |panels|
    ensures r.Some? <==> exists j :: 0 <= j < |panels| && panels[j].semantic.segment == Some(segment)
    ensures r.Some? ==> forall j :: 0 <= j < |panels| && panels[j].semantic.segment == Some(segment)
                          ==> r.value <= positions[j].position.x
    ensures r.Some? ==> exists j :: 0 <= j < |panels| && panels[j].semantic.segment == Some(segment)
                          && positions[j].position.x == r.value
  {
    if |panels| == 0 then None
    else
      var n := |panels| - 1;
      var rest := RowLeft(panels[..n], positions[..n], segment);
      assert forall j :: 0 <= j < n ==> panels[..n][j] == panels[j] && positions[..n][j] == positions[j];
      var x := positions[n].position.x;
      if panels[n].semantic.segment != Some(segment) then rest
      else if rest.Some? && rest.value <= x then rest
      else Some(x)
  }

  /** The columns that already have a label after the first `n` panels. */
  function SeenSteps(panels: seq<Panel>, n: nat): set<int>
    requires n <= |panels|
  {
    if n == 0 then {}
    else
      SeenSteps(panels, n - 1)
      + (if Truthy(panels[n - 1].processLabel) then {panels[n - 1].semantic.processStep} else {})
  }

  /** The rows that already have a label after the first `n` panels. */
  function SeenSegments(panels: seq<Panel>, n: nat): set<int>
    requires n <= |panels|
  {
    if n == 0 then {}
    else
      SeenSegments(panels, n - 1)
      + (if Truthy(panels[n - 1].segmentLabel) && panels[n - 1].semantic.segment.Some?
         then {panels[n - 1].semantic.segment.value} else {})
  }

  /** Panel `i` carries a processLabel and its column has no label yet. */
  predicate OpensColumn(panels: seq<Panel>, i: nat)
    requires i < |panels|
  {
    Truthy(panels[i].processLabel) && panels[i].semantic.processStep !in SeenSteps(panels, i)
  }

  /** Panel `i` carries a segmentLabel and a segment, and its row has no label yet. */
  predicate OpensRow(panels: seq<Panel>, i: nat)
    requires i < |panels|
  {
    Truthy(panels[i].segmentLabel) && panels[i].semantic.segment.Some?
    && panels[i].semantic.segment.value !in SeenSegments(panels, i)
  }

  function XLabel(panels: seq<Panel>, positions: seq<PanelPosition>, i: nat): AxisLabel
    requires |positions| == |panels| && i < |panels| && Truthy(panels[i].processLabel)
  {
    var pos := positions[i].position;
    var top := ColumnTop(panels, positions, panels[i].semantic.processStep);
    AxisLabel(panels[i].processLabel.value, Vec3(pos.x, top.value + ABOVE_COLUMN, pos.z), XAxis)
  }

  function YLabel(panels: seq<Panel>, positions: seq<PanelPosition>, i: nat): AxisLabel
    requires |positions| == |panels| && i < |panels| && Truthy(panels[i].segmentLabel)
    requires panels[i].semantic.segment.Some?
  {
    var pos := positions[i].position;
    var left := RowLeft(panels, positions, panels[i].semantic.segment.value);
    AxisLabel(panels[i].segmentLabel.value, Vec3(left.value - LEFT_OF_ROW, pos.y, pos.z), YAxis)
  }

  /** The labels panel `i` contributes: its column's, then its row's. */
  function LabelsOf(panels: seq<Panel>, positions: seq<PanelPosition>, i: nat): seq<AxisLabel>
    requires |positions| == |panels| && i < |panels|
  {
    (if OpensColumn(panels, i) then [XLabel(panels, positions, i)] else [])
    + (if OpensRow(panels, i) then [YLabel(panels, positions, i)] else [])
  }

  /** The concatenation of `part(0)`, ..., `part(n - 1)`. */
  function Concat<T>(part: nat -> seq<T>, n: nat): seq<T> {
    if n == 0 then [] else Concat(part, n - 1) + part(n - 1)
  }

  /** What any part holds, the concatenation of it and later parts holds. */
  lemma {:induction false} ConcatHas<T>(part: nat -> seq<T>, n: nat, k: nat, x: T)
    requires k < n && x in part(k)
    ensures x in Concat(part, n)
  {
    if k < n - 1 {
      ConcatHas(part, n - 1, k, x);
    }
  }

  /** Panel `i`'s contribution, as a function of `i` (nothing past the end). */
  function Contribution(panels: seq<Panel>, positions: seq<PanelPosition>): nat -> seq<AxisLabel>
    requires |positions| == |panels|
  {
    (i: nat) => if i < |panels| then LabelsOf(panels, positions, i) else []
  }

  /** The labels of the first `n` panels, in panel order. */
  function LabelsUpTo(panels: seq<Panel>, positions: seq<PanelPosition>, n: nat): seq<AxisLabel>
    requires |positions| == |panels| && n <= |panels|
  {
    Concat(Contribution(panels, positions), n)
  }

  /** The label list of the scene. */
  function Labels(panels: seq<Panel>): seq<AxisLabel> {
    if |panels| == 0 then []
    else LabelsUpTo(panels, GrammarLayout.Layout(panels), |panels|)
  }

  /** `computeAxisLabels(panels)` */
  method ComputeLabels(panels: seq<Panel>) returns (result: seq<AxisLabel>)
    ensures result == Labels(panels)
  {
    if |panels| == 0 {
      return [];
    }
    var positions := GrammarLayout.Layout(panels);
    result := LabelsLoop(panels, positions);
  }

  /** The loop over the panels, against any index-aligned positions. */
  method LabelsLoop(panels: seq<Panel>, positions: seq<PanelPosition>) returns (result: seq<AxisLabel>)
    requires |positions| == |panels|
    ensures result == LabelsUpTo(panels, positions, |panels|)
  {
    result := [];
    var seenProcess: set<int> := {};
    var seenSegment: set<int> := {};
    for i := 0 to |panels|
      invariant result == LabelsUpTo(panels, positions, i)
      invariant seenProcess == SeenSteps(panels, i)
      invariant seenSegment == SeenSegments(panels, i)
    {
      LabelsStep(panels, positions, i);
      result, seenProcess := VisitColumn(panels, positions, i, result, seenProcess);
      result, seenSegment := VisitRow(panels, positions, i, result, seenSegment);
    }
  }

  /** The x-axis half of the loop body for panel `i`. */
  method VisitColumn(panels: seq<Panel>, positions: seq<PanelPosition>, i: nat,
                     result: seq<AxisLabel>, seenProcess: set<int>)
    returns (result': seq<AxisLabel>, seenProcess': set<int>)
    requires |positions| == |panels| && i < |panels|
    requires seenProcess == SeenSteps(panels, i)
    ensures result' == result + (if OpensColumn(panels, i) then [XLabel(panels, positions, i)] else [])
    ensures seenProcess' == SeenSteps(panels, i + 1)
  {
    var panel := panels[i];
    var pos := positions[i].position;
    result', seenProcess' := result, seenProcess;
    if Truthy(panel.processLabel) && panel.semantic.processStep !in seenProcess {
      seenProcess' := seenProcess + {panel.semantic.processStep};
      var maxY := ColumnTop(panels, positions, panel.semantic.processStep).value;
      result' := result + [AxisLabel(panel.processLabel.value, Vec3(pos.x, maxY + ABOVE_COLUMN, pos.z), XAxis)];
    }
  }

  /** The y-axis half of the loop body for panel `i`. */
  method VisitRow(panels: seq<Panel>, positions: seq<PanelPosition>, i: nat,
                  result: seq<AxisLabel>, seenSegment: set<int>)
    returns (result': seq<AxisLabel>, seenSegment': set<int>)
    requires |positions| == |panels| && i < |panels|
    requires seenSegment == SeenSegments(panels, i)
    ensures result' == result + (if OpensRow(panels, i) then [YLabel(panels, positions, i)] else [])
    ensures seenSegment' == SeenSegments(panels, i + 1)
  {
    var panel := panels[i];
    var pos := positions[i].position;
    result', seenSegment' := result, seenSegment;
    if Truthy(panel.segmentLabel) && panel.semantic.segment.Some? && panel.semantic.segment.value !in seenSegment {
      seenSegment' := seenSegment + {panel.semantic.segment.value};
      var minX := RowLeft(panels, positions, panel.semantic.segment.value).value;
      result' := result + [AxisLabel(panel.segmentLabel.value, Vec3(minX - LEFT_OF_ROW, pos.y, pos.z), YAxis)];
    }
  }

  /** The labels of `i + 1` panels: those of `i`, then panel `i`'s column label, then its row label. */
  lemma LabelsStep(panels: seq<Panel>, positions: seq<PanelPosition>, i: nat)
    requires |positions| == |panels| && i < |panels|
    ensures LabelsUpTo(panels, positions, i + 1) == LabelsUpTo(panels, positions, i) + LabelsOf(panels, positions, i)
  {
  }

  /** A step has been seen after `n` panels exactly when one of them carries
      a processLabel and has that step. */
  lemma {:induction false} SeenStepsMeaning(panels: seq<Panel>, n: nat, step: int)
    requires n <= |panels|
    ensures step in SeenSteps(panels, n) <==>
      exists j :: 0 <= j < n && Truthy(panels[j].processLabel) && panels[j].semantic.processStep == step
  {
    if n > 0 {
      SeenStepsMeaning(panels, n - 1, step);
    }
  }

  /** A segment has been seen after `n` panels exactly when one of them
      carries a segmentLabel and has that segment. */
  lemma {:induction false} SeenSegmentsMeaning(panels: seq<Panel>, n: nat, segment: int)
    requires n <= |panels|
    ensures segment in SeenSegments(panels, n) <==>
      exists j :: (0 <= j < n && Truthy(panels[j].segmentLabel) && panels[j].semantic.segment == Some(segment))
  {
    if n > 0 {
      SeenSegmentsMeaning(panels, n - 1, segment);
    }
  }

  /** A panel opens its column exactly when it carries a processLabel and no
      earlier panel of its column does. */
  lemma ColumnOpening(panels: seq<Panel>, i: nat)
    requires i < |panels|
    ensures OpensColumn(panels, i) <==>
      Truthy(panels[i].processLabel)
      && forall j :: 0 <= j < i && Truthy(panels[j].processLabel)
           ==> panels[j].semantic.processStep != panels[i].semantic.processStep
  {
    SeenStepsMeaning(panels, i, panels[i].semantic.processStep);
  }

  /** A panel opens its row exactly when it carries a segmentLabel and a
      segment and no earlier panel of its row does. */
  lemma RowOpening(panels: seq<Panel>, i: nat)
    requires i < |panels|
    ensures OpensRow(panels, i) <==>
      Truthy(panels[i].segmentLabel) && panels[i].semantic.segment.Some?
      && forall j :: 0 <= j < i && Truthy(panels[j].segmentLabel) && panels[j].semantic.segment.Some?
           ==> panels[j].semantic.segment != panels[i].semantic.segment
  {
    if panels[i].semantic.segment.Some? {
      SeenSegmentsMeaning(panels, i, panels[i].semantic.segment.value);
    }
  }

  // ---------------------------------------------------------------------
  // Properties

  /** Every x-label sits at the x of one of the first `n` panels that carries
      a processLabel. */
  predicate XLabelsFromColumns(panels: seq<Panel>, positions: seq<PanelPosition>, labels: seq<AxisLabel>, n: nat)
    requires |positions| == |panels| && n <= |panels|
  {
    forall a :: 0 <= a < |labels| && labels[a].axis == XAxis ==>
      exists j :: (0 <= j < n && Truthy(panels[j].processLabel) && labels[a].position.x == positions[j].position.x)
  }

  /** No two x-labels share an x. */
  predicate XLabelsApart(labels: seq<AxisLabel>) {
    forall a, b :: 0 <= a < b < |labels| && labels[a].axis == XAxis && labels[b].axis == XAxis
      ==> labels[a].position.x != labels[b].position.x
  }

  /** Positions that separate columns: panels of different steps have different x. */
  predicate ColumnsApart(panels: seq<Panel>, positions: seq<PanelPosition>)
    requires |positions| == |panels|
  {
    forall i, j :: 0 <= i < |panels| && 0 <= j < |panels|
      && panels[i].semantic.processStep != panels[j].semantic.processStep
      ==> positions[i].position.x != positions[j].position.x
  }

  /** The semantic layout separates columns. */
  lemma LayoutColumnsApart(panels: seq<Panel>)
    ensures ColumnsApart(panels, GrammarLayout.Layout(panels))
  {
    forall i, j | 0 <= i < |panels| && 0 <= j < |panels|
      && panels[i].semantic.processStep != panels[j].semantic.processStep
      ensures GrammarLayout.Layout(panels)[i].position.x != GrammarLayout.Layout(panels)[j].position.x
    {
      GrammarLayout.XCentred(panels, i, j);
      GrammarLayout.XCentred(panels, j, i);
    }
  }

  /** The x of a panel that opens its column differs from the x of every
      earlier labelled panel, since those are in other columns. */
  lemma NewColumnApart(panels: seq<Panel>, positions: seq<PanelPosition>, labels: seq<AxisLabel>, i: nat)
    requires |positions| == |panels| && ColumnsApart(panels, positions)
    requires i < |panels| && OpensColumn(panels, i)
    requires XLabelsFromColumns(panels, positions, labels, i)
    ensures forall a :: (0 <= a < |labels| && labels[a].axis == XAxis
      ==> labels[a].position.x != positions[i].position.x)
  {
    ColumnOpening(panels, i);
    forall a | 0 <= a < |labels| && labels[a].axis == XAxis
      ensures labels[a].position.x != positions[i].position.x
    {
      var j :| 0 <= j < i && Truthy(panels[j].processLabel) && labels[a].position.x == positions[j].position.x;
    }
  }

  /** The only x-label panel `i` contributes comes first and sits at the
      panel's own x, and only when the panel opens its column. */
  lemma LabelsOfXShape(panels: seq<Panel>, positions: seq<PanelPosition>, i: nat)
    requires |positions| == |panels| && i < |panels|
    ensures forall b :: (0 <= b < |LabelsOf(panels, positions, i)| && LabelsOf(panels, positions, i)[b].axis == XAxis
      ==> b == 0 && OpensColumn(panels, i) && LabelsOf(panels, positions, i)[b].position.x == positions[i].position.x)
  {
  }

  /** Appending a label whose x is new, then labels that are not x-labels,
      keeps the x-labels apart. */
  lemma AppendApart(labels: seq<AxisLabel>, extra: seq<AxisLabel>, x: real)
    requires XLabelsApart(labels)
    requires |extra| > 0 && extra[0].axis == XAxis
      ==> forall a :: 0 <= a < |labels| && labels[a].axis == XAxis ==> labels[a].position.x != x
    requires forall b :: 0 <= b < |extra| && extra[b].axis == XAxis ==> b == 0 && extra[b].position.x == x
    ensures XLabelsApart(labels + extra)
  {
  }

  /** Appending x-labels at the x of labelled panel `i` keeps every x-label
      at the x of a labelled panel, now among the first `i + 1`. */
  lemma AppendFromColumns(panels: seq<Panel>, positions: seq<PanelPosition>, labels: seq<AxisLabel>,
                          extra: seq<AxisLabel>, i: nat)
    requires |positions| == |panels| && i < |panels|
    requires XLabelsFromColumns(panels, positions, labels, i)
    requires forall b :: (0 <= b < |extra| && extra[b].axis == XAxis
      ==> Truthy(panels[i].processLabel) && extra[b].position.x == positions[i].position.x)
    ensures XLabelsFromColumns(panels, positions, labels + extra, i + 1)
  {
    forall a | 0 <= a < |labels + extra| && (labels + extra)[a].axis == XAxis
      ensures exists j :: (0 <= j < i + 1 && Truthy(panels[j].processLabel)
        && (labels + extra)[a].position.x == positions[j].position.x)
    {
      if a < |labels| {
        assert (labels + extra)[a] == labels[a];
      } else {
        assert (labels + extra)[a] == extra[a - |labels|];
      }
    }
  }

  lemma {:induction false} XLabelsUpTo(panels: seq<Panel>, positions: seq<PanelPosition>, n: nat)
    requires |positions| == |panels| && ColumnsApart(panels, positions) && n <= |panels|
    ensures XLabelsFromColumns(panels, positions, LabelsUpTo(panels, positions, n), n)
    ensures XLabelsApart(LabelsUpTo(panels, positions, n))
  {
    if n > 0 {
      var i := n - 1;
      XLabelsUpTo(panels, positions, i);
      LabelsStep(panels, positions, i);
      var before := LabelsUpTo(panels, positions, i);
      var extra := LabelsOf(panels, positions, i);
      LabelsOfXShape(panels, positions, i);
      if OpensColumn(panels, i) {
        NewColumnApart(panels, positions, before, i);
      }
      AppendApart(before, extra, positions[i].position.x);
      AppendFromColumns(panels, positions, before, extra, i);
    }
  }

  /** One x-label per column: no two x-labels share an x. */
  lemma OneLabelPerColumn(panels: seq<Panel>)
    ensures XLabelsApart(Labels(panels))
  {
    if |panels| > 0 {
      LayoutColumnsApart(panels);
      XLabelsUpTo(panels, GrammarLayout.Layout(panels), |panels|);
    }
  }

  /** Every y-label sits at the y of one of the first `n` panels that carries
      a segmentLabel and a segment. */
  predicate YLabelsFromRows(panels: seq<Panel>, positions: seq<PanelPosition>, labels: seq<AxisLabel>, n: nat)
    requires |positions| == |panels| && n <= |panels|
  {
    forall a :: 0 <= a < |labels| && labels[a].axis == YAxis ==>
      exists j :: (0 <= j < n && Truthy(panels[j].segmentLabel) && panels[j].semantic.segment.Some?
                   && labels[a].position.y == positions[j].position.y)
  }

  /** No two y-labels share a y. */
  predicate YLabelsApart(labels: seq<AxisLabel>) {
    forall a, b :: 0 <= a < b < |labels| && labels[a].axis == YAxis && labels[b].axis == YAxis
      ==> labels[a].position.y != labels[b].position.y
  }

  /** Positions that separate rows: panels of different non-null segments have different y. */
  predicate RowsApart(panels: seq<Panel>, positions: seq<PanelPosition>)
    requires |positions| == |panels|
  {
    forall i, j :: 0 <= i < |panels| && 0 <= j < |panels|
      && panels[i].semantic.segment.Some? && panels[j].semantic.segment.Some?
      && panels[i].semantic.segment != panels[j].semantic.segment
      ==> positions[i].position.y != positions[j].position.y
  }

  /** The semantic layout separates rows. */
  lemma LayoutRowsApart(panels: seq<Panel>)
    ensures RowsApart(panels, GrammarLayout.Layout(panels))
  {
    forall i, j | 0 <= i < |panels| && 0 <= j < |panels|
      && panels[i].semantic.segment.Some? && panels[j].semantic.segment.Some?
      && panels[i].semantic.segment != panels[j].semantic.segment
      ensures GrammarLayout.Layout(panels)[i].position.y != GrammarLayout.Layout(panels)[j].position.y
    {
      GrammarLayout.YAndZOrder(panels, i, j);
      GrammarLayout.YAndZOrder(panels, j, i);
    }
  }

  /** The y of a panel that opens its row differs from the y of every
      earlier panel with a segmentLabel and a segment. */
  lemma NewRowApart(panels: seq<Panel>, positions: seq<PanelPosition>, labels: seq<AxisLabel>, i: nat)
    requires |positions| == |panels| && RowsApart(panels, positions)
    requires i < |panels| && OpensRow(panels, i)
    requires YLabelsFromRows(panels, positions, labels, i)
    ensures forall a :: (0 <= a < |labels| && labels[a].axis == YAxis
      ==> labels[a].position.y != positions[i].position.y)
  {
    RowOpening(panels, i);
    forall a | 0 <= a < |labels| && labels[a].axis == YAxis
      ensures labels[a].position.y != positions[i].position.y
    {
      var j :| 0 <= j < i && Truthy(panels[j].segmentLabel) && panels[j].semantic.segment.Some?
        && labels[a].position.y == positions[j].position.y;
    }
  }

  /** The only y-label panel `i` contributes sits at the panel's own y, and
      only when the panel opens its row. */
  lemma LabelsOfYShape(panels: seq<Panel>, positions: seq<PanelPosition>, i: nat)
    requires |positions| == |panels| && i < |panels|
    ensures var extra := LabelsOf(panels, positions, i);
      && (forall b :: 0 <= b < |extra| - 1 ==> extra[b].axis != YAxis)
      && (forall b :: (0 <= b < |extra| && extra[b].axis == YAxis
            ==> OpensRow(panels, i) && extra[b].position.y == positions[i].position.y))
  {
  }

  /** Appending at most one y-label, at a new y, keeps the y-labels apart. */
  lemma AppendApartY(labels: seq<AxisLabel>, extra: seq<AxisLabel>, y: real)
    requires YLabelsApart(labels)
    requires forall b :: 0 <= b < |extra| - 1 ==> extra[b].axis != YAxis
    requires forall b :: 0 <= b < |extra| && extra[b].axis == YAxis ==> extra[b].position.y == y
    requires (exists b :: 0 <= b < |extra| && extra[b].axis == YAxis)
      ==> forall a :: 0 <= a < |labels| && labels[a].axis == YAxis ==> labels[a].position.y != y
    ensures YLabelsApart(labels + extra)
  {
    forall a, b | 0 <= a < b < |labels + extra| && (labels + extra)[a].axis == YAxis && (labels + extra)[b].axis == YAxis
      ensures (labels + extra)[a].position.y != (labels + extra)[b].position.y
    {
      if b >= |labels| {
        assert (labels + extra)[b] == extra[b - |labels|];
        if a < |labels| {
          assert (labels + extra)[a] == labels[a];
          assert extra[b - |labels|].axis == YAxis;
        }
      } else {
        assert (labels + extra)[a] == labels[a] && (labels + extra)[b] == labels[b];
      }
    }
  }

  /** Appending y-labels at the y of panel `i`, which has a segmentLabel and a
      segment, keeps every y-label at such a panel's y. */
  lemma AppendFromRows(panels: seq<Panel>, positions: seq<PanelPosition>, labels: seq<AxisLabel>,
                       extra: seq<AxisLabel>, i: nat)
    requires |positions| == |panels| && i < |panels|
    requires YLabelsFromRows(panels, positions, labels, i)
    requires forall b :: (0 <= b < |extra| && extra[b].axis == YAxis
      ==> Truthy(panels[i].segmentLabel) && panels[i].semantic.segment.Some?
          && extra[b].position.y == positions[i].position.y)
    ensures YLabelsFromRows(panels, positions, labels + extra, i + 1)
  {
    forall a | 0 <= a < |labels + extra| && (labels + extra)[a].axis == YAxis
      ensures exists j :: (0 <= j < i + 1 && Truthy(panels[j].segmentLabel) && panels[j].semantic.segment.Some?
        && (labels + extra)[a].position.y == positions[j].position.y)
    {
      if a < |labels| {
        assert (labels + extra)[a] == labels[a];
      } else {
        assert (labels + extra)[a] == extra[a - |labels|];
      }
    }
  }

  lemma {:induction false} YLabelsUpTo(panels: seq<Panel>, positions: seq<PanelPosition>, n: nat)
    requires |positions| == |panels| && RowsApart(panels, positions) && n <= |panels|
    ensures YLabelsFromRows(panels, positions, LabelsUpTo(panels, positions, n), n)
    ensures YLabelsApart(LabelsUpTo(panels, positions, n))
  {
    if n > 0 {
      var i := n - 1;
      YLabelsUpTo(panels, positions, i);
      LabelsStep(panels, positions, i);
      var before := LabelsUpTo(panels, positions, i);
      var extra := LabelsOf(panels, positions, i);
      LabelsOfYShape(panels, positions, i);
      if OpensRow(panels, i) {
        NewRowApart(panels, positions, before, i);
      }
      AppendApartY(before, extra, positions[i].position.y);
      AppendFromRows(panels, positions, before, extra, i);
    }
  }

  /** One y-label per row: no two y-labels share a y. */
  lemma OneLabelPerRow(panels: seq<Panel>)
    ensures YLabelsApart(Labels(panels))
  {
    if |panels| > 0 {
      LayoutRowsApart(panels);
      YLabelsUpTo(panels, GrammarLayout.Layout(panels), |panels|);
    }
  }

  /** Each labelled panel's column is opened by a labelled panel at or before it. */
  lemma {:induction false} ColumnOpener(panels: seq<Panel>, j: nat) returns (k: nat)
    requires j < |panels| && Truthy(panels[j].processLabel)
    ensures k <= j && OpensColumn(panels, k)
    ensures panels[k].semantic.processStep == panels[j].semantic.processStep
  {
    ColumnOpening(panels, j);
    if OpensColumn(panels, j) {
      k := j;
    } else {
      var i :| 0 <= i < j && Truthy(panels[i].processLabel)
        && panels[i].semantic.processStep == panels[j].semantic.processStep;
      k := ColumnOpener(panels, i);
    }
  }

  /** Each row with a labelled panel is opened by such a panel at or before it. */
  lemma {:induction false} RowOpener(panels: seq<Panel>, j: nat) returns (k: nat)
    requires j < |panels| && Truthy(panels[j].segmentLabel) && panels[j].semantic.segment.Some?
    ensures k <= j && OpensRow(panels, k)
    ensures panels[k].semantic.segment == panels[j].semantic.segment
  {
    RowOpening(panels, j);
    if OpensRow(panels, j) {
      k := j;
    } else {
      var i :| 0 <= i < j && Truthy(panels[i].segmentLabel) && panels[i].semantic.segment.Some?
        && panels[i].semantic.segment == panels[j].semantic.segment;
      k := RowOpener(panels, i);
    }
  }

  /** A panel that opens its column or row contributes that label. */
  lemma OwnLabels(panels: seq<Panel>, positions: seq<PanelPosition>, i: nat)
    requires |positions| == |panels| && i < |panels|
    ensures OpensColumn(panels, i) ==> XLabel(panels, positions, i) in LabelsOf(panels, positions, i)
    ensures OpensRow(panels, i) ==> YLabel(panels, positions, i) in LabelsOf(panels, positions, i)
  {
  }

  /** A panel that opens its column contributes its x-label to the scene's labels. */
  lemma ColumnOpenerLabelled(panels: seq<Panel>, positions: seq<PanelPosition>, k: nat)
    requires |positions| == |panels| && k < |panels| && OpensColumn(panels, k)
    ensures XLabel(panels, positions, k) in LabelsUpTo(panels, positions, |panels|)
  {
    OwnLabels(panels, positions, k);
    ConcatHas(Contribution(panels, positions), |panels|, k, XLabel(panels, positions, k));
  }

  /** A panel that opens its row contributes its y-label to the scene's labels. */
  lemma RowOpenerLabelled(panels: seq<Panel>, positions: seq<PanelPosition>, k: nat)
    requires |positions| == |panels| && k < |panels| && OpensRow(panels, k)
    ensures YLabel(panels, positions, k) in LabelsUpTo(panels, positions, |panels|)
  {
    OwnLabels(panels, positions, k);
    ConcatHas(Contribution(panels, positions), |panels|, k, YLabel(panels, positions, k));
  }

  /** Every column with a processLabel gets the x-label of its first labelled panel. */
  lemma EveryColumnLabelled(panels: seq<Panel>, j: nat)
    requires j < |panels| && Truthy(panels[j].processLabel)
    ensures exists k :: (0 <= k <= j && OpensColumn(panels, k)
      && panels[k].semantic.processStep == panels[j].semantic.processStep
      && XLabel(panels, GrammarLayout.Layout(panels), k) in Labels(panels))
  {
    var k := ColumnOpener(panels, j);
    ColumnOpenerLabelled(panels, GrammarLayout.Layout(panels), k);
  }

  /** In the default scene every panel has a processLabel, so every column
      gets the x-label of its first panel. */
  lemma DefaultColumnsLabelled(panels: seq<Panel>, j: nat)
    requires panels == MockData.DefaultPanels() && j < |panels|
    ensures exists k :: (0 <= k <= j && OpensColumn(panels, k)
      && panels[k].semantic.processStep == panels[j].semantic.processStep
      && XLabel(panels, GrammarLayout.Layout(panels), k) in Labels(panels))
  {
    MockData.LabelsPresent();
    EveryColumnLabelled(panels, j);
  }

  /** Every row with a segmentLabel and a segment gets the y-label of its first such panel. */
  lemma EveryRowLabelled(panels: seq<Panel>, j: nat)
    requires j < |panels| && Truthy(panels[j].segmentLabel) && panels[j].semantic.segment.Some?
    ensures exists k :: (0 <= k <= j && OpensRow(panels, k)
      && panels[k].semantic.segment == panels[j].semantic.segment
      && YLabel(panels, GrammarLayout.Layout(panels), k) in Labels(panels))
  {
    var k := RowOpener(panels, j);
    RowOpenerLabelled(panels, GrammarLayout.Layout(panels), k);
  }
}
