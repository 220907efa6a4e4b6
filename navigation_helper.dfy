/** The on-screen navigation helper: the six neighbours of the focused panel
    and the buttons that navigate to them along fixed axes. */
module NavigationHelper {
  import opened Panels
  import opened KeyboardNavigation

  datatype Neighbors = Neighbors(
    left: Option<Panel>,
    right: Option<Panel>,
    up: Option<Panel>,
    down: Option<Panel>,
    drillOut: Option<Panel>,
    drillIn: seq<Panel>)

  /** The panel whose id is `current.parentId`, when that is truthy. */
  function ParentOf(panels: seq<Panel>, current: Panel): (r: Option<Panel>)
    ensures r.Some? ==> HasParent(current) && r.value in panels && Some(r.value.id) == current.parentId
    ensures r.None? <==> !HasParent(current) || forall i :: 0 <= i < |panels| ==> Some(panels[i].id) != current.parentId
  {
    if HasParent(current) then
      match FindIndexById(panels, current.parentId)
      case None => None
      case Some(k) => Some(panels[k])
    else None
  }

  /** The panels whose `parentId` is exactly the current panel's id, in list
      order: the k-th child is the panel at the k-th such index. */
  function ChildrenOf(panels: seq<Panel>, current: Panel): (r: seq<Panel>)
    ensures forall p :: p in r <==> p in panels && p.parentId == Some(current.id)
    ensures var idx := PassingIndices(panels, ChildOf(current.id));
      |r| == |idx| && forall k :: 0 <= k < |r| ==> r[k] == panels[idx[k]]
  {
    FilterOrder(panels, ChildOf(current.id));
    Filter(panels, ChildOf(current.id))
  }

  function ComputeNeighbors(panels: seq<Panel>, current: Panel): Neighbors {
    Neighbors(
      FindNeighbor(panels, current, X, -1),
      FindNeighbor(panels, current, X, 1),
      FindNeighbor(panels, current, Y, 1),
      FindNeighbor(panels, current, Y, -1),
      ParentOf(panels, current),
      ChildrenOf(panels, current))
  }

  const NO_NEIGHBORS := Neighbors(None, None, None, None, None, [])

  /** The neighbours the helper shows: none when no panel is focused. */
  function HelperNeighbors(panels: seq<Panel>, focusedPanelId: Option<string>): Neighbors {
    match FindById(panels, focusedPanelId)
    case None => NO_NEIGHBORS
    case Some(current) => ComputeNeighbors(panels, current)
  }

  /** A button: the panel it navigates to (none: disabled) and the axis it
      reports to the store. */
  datatype Button = Button(target: Option<Panel>, axis: Axis)

  /** What pressing a button asks of the store: `navigateTo(id, axis)`, or nothing. */
  datatype NavRequest = NavRequest(panelId: string, axis: Axis)

  function Click(b: Button): (r: Option<NavRequest>)
    ensures r.None? <==> b.target.None?
    ensures r.Some? ==> r.value == NavRequest(b.target.value.id, b.axis)
  {
    match b.target
    case None => None
    case Some(t) => Some(NavRequest(t.id, b.axis))
  }

  /** `drillIn[0] ?? null` */
  function FirstChild(n: Neighbors): Option<Panel> {
    if |n.drillIn| > 0 then Some(n.drillIn[0]) else None
  }

  /** Compact mode: six icon buttons, disabled where there is no target. */
  function CompactButtons(n: Neighbors): seq<Button> {
    [Button(n.drillOut, Z), Button(n.left, X), Button(n.right, X),
     Button(n.up, Y), Button(n.down, Y), Button(FirstChild(n), Z)]
  }

  function Present(target: Option<Panel>, axis: Axis): seq<Button> {
    if target.Some? then [Button(target, axis)] else []
  }

  /** Full mode: one button per present neighbour, then one per child. */
  function FullButtons(n: Neighbors): seq<Button> {
    Present(n.drillOut, Z) + Present(n.left, X) + Present(n.right, X)
    + Present(n.up, Y) + Present(n.down, Y) + ChildButtons(n.drillIn)
  }

  function ChildButtons(children: seq<Panel>): (r: seq<Button>)
    ensures |r| == |children|
    ensures forall i :: 0 <= i < |r| ==> r[i] == Button(Some(children[i]), Z)
  {
    if |children| == 0 then [] else [Button(Some(children[0]), Z)] + ChildButtons(children[1..])
  }

  // ---------------------------------------------------------------------
  // Properties

  /** The four lateral neighbours are the keyboard's: left/right are X -1/+1
      and up/down are Y +1/-1; with no focused panel there is nothing. */
  lemma HelperMatchesKeyboard(panels: seq<Panel>, focusedPanelId: Option<string>)
    ensures var n := HelperNeighbors(panels, focusedPanelId);
      var current := FindById(panels, focusedPanelId);
      && (current.None? ==> n == NO_NEIGHBORS)
      && (current.Some? ==>
            && n.left == FindNeighbor(panels, current.value, X, -1)
            && n.right == FindNeighbor(panels, current.value, X, 1)
            && n.up == FindNeighbor(panels, current.value, Y, 1)
            && n.down == FindNeighbor(panels, current.value, Y, -1))
  {
  }

  /** Compact mode always shows six buttons on fixed axes; the last one
      targets the first child in list order, and a button is disabled
      exactly when its target is missing. */
  lemma CompactLayout(n: Neighbors)
    ensures var b := CompactButtons(n);
      && |b| == 6
      && b[0].axis == Z && b[1].axis == X && b[2].axis == X && b[3].axis == Y && b[4].axis == Y && b[5].axis == Z
      && b[0].target == n.drillOut && b[1].target == n.left && b[2].target == n.right
      && b[3].target == n.up && b[4].target == n.down
      && (|n.drillIn| == 0 ==> Click(b[5]).None?)
      && (|n.drillIn| > 0 ==> Click(b[5]) == Some(NavRequest(n.drillIn[0].id, Z)))
  {
  }

  /** Full mode shows only enabled buttons: one per present neighbour on its
      axis, then one per child along Z, in list order. */
  lemma {:induction false} FullButtonsEnabled(n: Neighbors)
    ensures forall b :: b in FullButtons(n) ==> Click(b).Some?
    ensures |FullButtons(n)| == Count(n.drillOut) + Count(n.left) + Count(n.right) + Count(n.up) + Count(n.down) + |n.drillIn|
    ensures var b := FullButtons(n);
      forall i :: 0 <= i < |n.drillIn| ==> b[|b| - |n.drillIn| + i] == Button(Some(n.drillIn[i]), Z)
  {
    var heads := Present(n.drillOut, Z) + Present(n.left, X) + Present(n.right, X)
      + Present(n.up, Y) + Present(n.down, Y);
    var kids := ChildButtons(n.drillIn);
    assert FullButtons(n) == heads + kids;
    forall b | b in FullButtons(n) ensures Click(b).Some? {
      if b in kids {
        var i :| 0 <= i < |kids| && kids[i] == b;
      }
    }
  }

  function Count(o: Option<Panel>): nat {
    if o.Some? then 1 else 0
  }

  /** The compact drill-in target is the first child, not the Z+1 neighbour:
      a child in another column and an unrelated panel below the current one
      tell them apart. */
  lemma FirstChildIsNotDepthNeighbor(parent: Panel, child: Panel, below: Panel)
    requires parent.id == "p" && parent.semantic == Semantic(0, None, 0) && parent.parentId == None
    requires child.id == "c" && child.semantic == Semantic(1, None, 1) && child.parentId == Some("p")
    requires below.id == "q" && below.semantic == Semantic(0, None, 1) && below.parentId == None
    ensures FirstChild(ComputeNeighbors([parent, child, below], parent)) == Some(child)
    ensures FindNeighbor([parent, child, below], parent, Z, 1) == Some(below)
  {
    var panels := [parent, child, below];
    var z := (p: Panel) => ZCandidate(p, parent, 1);
    assert panels[1..] == [child, below] && [child, below][1..] == [below] && [below][1..] == [];
    assert Filter([below], z) == [below];
    assert Filter([child, below], z) == [below];
    assert ZCandidates(panels, parent, 1) == [below];
    DepthIsPreferRow(panels, parent, 1);
    var c := (p: Panel) => p.parentId == Some(parent.id);
    assert Filter(panels, c) == Filter([child, below], c) == [child] + Filter([below], c);
  }
}
