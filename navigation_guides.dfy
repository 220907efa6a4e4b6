/** The in-headset navigation guides: which directions are open from the
    focused panel, and the labels of the previous and next process steps. */
module NavigationGuides {
  import opened Panels
  import opened KeyboardNavigation
  import NavigationHelper
  import StableSort

  datatype Directions = Directions(left: bool, right: bool, up: bool, down: bool, drillIn: bool, drillOut: bool)

  const NO_DIRECTIONS := Directions(false, false, false, false, false, false)

  /** A panel at the given processStep and segment in the current panel's
      depth; the segment is compared exactly, so null matches only null. */
  predicate At(p: Panel, current: Panel, step: int, segment: Option<int>) {
    p.semantic.processStep == step && p.semantic.segment == segment
    && p.semantic.detailLevel == current.semantic.detailLevel
  }

  function DirectionsFrom(panels: seq<Panel>, current: Panel): Directions {
    var s := current.semantic;
    Directions(
      exists i :: 0 <= i < |panels| && At(panels[i], current, s.processStep - 1, s.segment),
      exists i :: 0 <= i < |panels| && At(panels[i], current, s.processStep + 1, s.segment),
      exists i :: 0 <= i < |panels| && At(panels[i], current, s.processStep, Some(SegOrZero(s.segment) + 1)),
      exists i :: 0 <= i < |panels| && At(panels[i], current, s.processStep, Some(SegOrZero(s.segment) - 1)),
      exists i :: 0 <= i < |panels| && panels[i].parentId == Some(current.id),
      HasParent(current))
  }

  function AvailableDirections(panels: seq<Panel>, focusedPanelId: Option<string>): Directions {
    match FindById(panels, focusedPanelId)
    case None => NO_DIRECTIONS
    case Some(current) => DirectionsFrom(panels, current)
  }

  /** The guides render only for a focused panel. */
  predicate Renders(panels: seq<Panel>, focusedPanelId: Option<string>) {
    FindById(panels, focusedPanelId).Some?
  }

  /** A level-0 panel at processStep `step`. */
  predicate AtStep(p: Panel, step: int) {
    p.semantic.processStep == step && p.semantic.detailLevel == 0
  }

  /** The title of the first panel at `step` on level 0, or `fallback` when
      there is none or its title is empty. */
  function StepLabel(panels: seq<Panel>, step: int, fallback: string): (r: string)
    ensures (forall i :: 0 <= i < |panels| ==> !AtStep(panels[i], step)) ==> r == fallback
    ensures forall i ::
      (0 <= i < |panels| && AtStep(panels[i], step) && forall j :: 0 <= j < i ==> !AtStep(panels[j], step))
      ==> r == (if panels[i].title != "" then panels[i].title else fallback)
    ensures r == fallback || exists i :: 0 <= i < |panels| && panels[i].title == r && AtStep(panels[i], step)
    ensures fallback != "" ==> r != ""
  {
    if |panels| == 0 then fallback
    else if AtStep(panels[0], step) then
      if panels[0].title != "" then panels[0].title else fallback
    else
      var r := StepLabel(panels[1..], step, fallback);
      assert forall j :: 1 <= j < |panels| ==> panels[j] == panels[1..][j - 1];
      r
  }

  datatype Labels = Labels(left: string, right: string)

  /** No labels without a focused panel. */
  function DirectionLabels(panels: seq<Panel>, focusedPanelId: Option<string>): Option<Labels> {
    match FindById(panels, focusedPanelId)
    case None => None
    case Some(current) =>
      Some(Labels(StepLabel(panels, current.semantic.processStep - 1, "Previous"),
                  StepLabel(panels, current.semantic.processStep + 1, "Next")))
  }

  // ---------------------------------------------------------------------
  // Properties

  /** Without a focused panel every direction is closed, there are no labels
      and nothing is rendered. */
  lemma NothingWithoutFocus(panels: seq<Panel>, focusedPanelId: Option<string>)
    requires forall i :: 0 <= i < |panels| ==> Some(panels[i].id) != focusedPanelId
    ensures AvailableDirections(panels, focusedPanelId) == NO_DIRECTIONS
    ensures DirectionLabels(panels, focusedPanelId).None?
    ensures !Renders(panels, focusedPanelId)
  {
  }

  /** With unique ids, an open lateral direction always has a keyboard
      neighbour that way: left/right along X, up/down along Y. */
  lemma OpenDirectionHasNeighbor(panels: seq<Panel>, k: nat)
    requires UniqueIds(panels) && k < |panels|
    ensures var d := DirectionsFrom(panels, panels[k]);
      && (d.left ==> FindNeighbor(panels, panels[k], X, -1).Some?)
      && (d.right ==> FindNeighbor(panels, panels[k], X, 1).Some?)
      && (d.up ==> FindNeighbor(panels, panels[k], Y, 1).Some?)
      && (d.down ==> FindNeighbor(panels, panels[k], Y, -1).Some?)
  {
    var d := DirectionsFrom(panels, panels[k]);
    if d.left { LeftArrowHasNeighbor(panels, k); }
    if d.right { RightArrowHasNeighbor(panels, k); }
    if d.up { UpArrowHasNeighbor(panels, k); }
    if d.down { DownArrowHasNeighbor(panels, k); }
  }

  lemma LeftArrowHasNeighbor(panels: seq<Panel>, k: nat)
    requires UniqueIds(panels) && k < |panels| && DirectionsFrom(panels, panels[k]).left
    ensures FindNeighbor(panels, panels[k], X, -1).Some?
  {
    var current := panels[k];
    var i :| 0 <= i < |panels| && At(panels[i], current, current.semantic.processStep - 1, current.semantic.segment);
    var q := panels[i];
    assert q.semantic.segment == current.semantic.segment;
    assert q.semantic.processStep == current.semantic.processStep - 1;
    assert q.semantic.detailLevel == current.semantic.detailLevel;
    assert i != k;
    var c := XCandidates(panels, current);
    assert q in panels && XCandidate(q, current);
    assert q in c;
    var j :| 0 <= j < |c| && c[j] == q;
    LeftIsNearest(panels, current);
    StableSort.NearestBelowFinds(c, StepOf, StepOf(current), j);
  }


  lemma RightArrowHasNeighbor(panels: seq<Panel>, k: nat)
    requires UniqueIds(panels) && k < |panels| && DirectionsFrom(panels, panels[k]).right
    ensures FindNeighbor(panels, panels[k], X, 1).Some?
  {
    var current := panels[k];
    var i :| 0 <= i < |panels| && At(panels[i], current, current.semantic.processStep + 1, current.semantic.segment);
    var q := panels[i];
    assert q.semantic.segment == current.semantic.segment;
    assert q.semantic.processStep == current.semantic.processStep + 1;
    assert q.semantic.detailLevel == current.semantic.detailLevel;
    assert i != k;
    var c := XCandidates(panels, current);
    assert q in panels && XCandidate(q, current);
    assert q in c;
    var j :| 0 <= j < |c| && c[j] == q;
    RightIsNearest(panels, current);
    StableSort.NearestAboveFinds(c, StepOf, StepOf(current), j);
  }


  lemma UpArrowHasNeighbor(panels: seq<Panel>, k: nat)
    requires UniqueIds(panels) && k < |panels| && DirectionsFrom(panels, panels[k]).up
    ensures FindNeighbor(panels, panels[k], Y, 1).Some?
  {
    var current := panels[k];
    var i :| 0 <= i < |panels| && At(panels[i], current, current.semantic.processStep, Some(SegOf(current) + 1));
    var q := panels[i];
    assert q.semantic.segment == Some(SegOf(current) + 1);
    assert q.semantic.processStep == current.semantic.processStep;
    assert q.semantic.detailLevel == current.semantic.detailLevel;
    assert i != k;
    var c := YCandidates(panels, current);
    assert q in panels && YCandidate(q, current);
    assert q in c;
    var j :| 0 <= j < |c| && c[j] == q;
    UpIsNearest(panels, current);
    StableSort.NearestAboveFinds(c, SegOf, SegOf(current), j);
  }


  lemma DownArrowHasNeighbor(panels: seq<Panel>, k: nat)
    requires UniqueIds(panels) && k < |panels| && DirectionsFrom(panels, panels[k]).down
    ensures FindNeighbor(panels, panels[k], Y, -1).Some?
  {
    var current := panels[k];
    var i :| 0 <= i < |panels| && At(panels[i], current, current.semantic.processStep, Some(SegOf(current) - 1));
    var q := panels[i];
    assert q.semantic.segment == Some(SegOf(current) - 1);
    assert q.semantic.processStep == current.semantic.processStep;
    assert q.semantic.detailLevel == current.semantic.detailLevel;
    assert i != k;
    var c := YCandidates(panels, current);
    assert q in panels && YCandidate(q, current);
    assert q in c;
    var j :| 0 <= j < |c| && c[j] == q;
    DownIsNearest(panels, current);
    StableSort.NearestBelowFinds(c, SegOf, SegOf(current), j);
  }



  /** The converse fails: across a gap in processSteps the keyboard still
      finds a left neighbour while the guide shows no left arrow. */
  lemma GapHidesLeftArrow(current: Panel, far: Panel)
    requires current.id == "b" && current.semantic == Semantic(2, None, 0)
    requires far.id == "a" && far.semantic == Semantic(0, None, 0)
    ensures FindNeighbor([far, current], current, X, -1) == Some(far)
    ensures !DirectionsFrom([far, current], current).left
  {
    var panels := [far, current];
    assert panels[1..] == [current] && [current][1..] == [];
    var x := XTest(current);
    assert Filter([current], x) == [];
    assert Filter(panels, x) == [far] + Filter([current], x);
    assert XCandidates(panels, current) == [far];
    LeftIsNearest(panels, current);
    assert [far][..0] == [];
  }

  /** The in/out flags agree with the helper's drill targets: "in" exactly
      when there are children, and a drill-out target implies "out"; a
      dangling `parentId` shows "out" with no target. */
  lemma DrillFlagsMatchHelper(panels: seq<Panel>, current: Panel)
    ensures var d := DirectionsFrom(panels, current);
      var n := NavigationHelper.ComputeNeighbors(panels, current);
      && (d.drillIn <==> |n.drillIn| > 0)
      && (n.drillOut.Some? ==> d.drillOut)
      && (d.drillOut && (forall i :: 0 <= i < |panels| ==> Some(panels[i].id) != current.parentId) ==> n.drillOut.None?)
  {
    var n := NavigationHelper.ComputeNeighbors(panels, current);
    if i :| 0 <= i < |panels| && panels[i].parentId == Some(current.id) {
      assert panels[i] in n.drillIn;
    }
    if |n.drillIn| > 0 {
      assert n.drillIn[0] in n.drillIn;
    }
  }

  /** The labels are never empty: a level-0 title at the neighbouring step,
      or "Previous" / "Next". */
  lemma LabelsNonEmpty(panels: seq<Panel>, focusedPanelId: Option<string>)
    requires DirectionLabels(panels, focusedPanelId).Some?
    ensures DirectionLabels(panels, focusedPanelId).value.left != ""
    ensures DirectionLabels(panels, focusedPanelId).value.right != ""
  {
  }
}
