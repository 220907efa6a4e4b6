/** The navigation history store: which panel is focused, the linear path of
    navigation steps that led there, and the camera target. Every action
    either truncates the path back to a revisited panel or extends it by one
    step; there is never a "forward" branch left beyond the current step. */
module DashboardStore {
  import opened Panels
  import GrammarLayout

  /** Where the camera sits and what it looks at. */
  datatype CameraTarget = CameraTarget(position: Vec3, lookAt: Vec3)

  /** One entry of the navigation path. */
  datatype NavigationStep = NavigationStep(panelId: string, axis: Axis, stepLabel: string, cameraTarget: CameraTarget)

  datatype Navigation = Navigation(steps: seq<NavigationStep>, currentIndex: int)

  /** The state the store's actions read and write. */
  datatype StoreState = StoreState(
    panels: seq<Panel>,
    focusedPanelId: Option<string>,
    navigation: Navigation,
    visiblePanelIds: seq<string>,
    cameraTarget: CameraTarget,
    isTransitioning: bool,
    isDragging: bool)

  /** The default overview camera, centred on the grammar layout. */
  const OVERVIEW_CAMERA := CameraTarget(Vec3(0.0, 0.0, 6.0), Vec3(0.0, 0.0, -8.0))

  const EMPTY_NAV := Navigation([], -1)

  const INITIAL_STATE := StoreState([], None, EMPTY_NAV, [], OVERVIEW_CAMERA, false, false)

  /** The camera 3 units in front of a panel along +Z, looking at the panel's
      layout position; the overview camera for an id no panel has. */
  function CameraForPanel(panels: seq<Panel>, panelId: string): (r: CameraTarget)
    ensures FindIndexById(panels, Some(panelId)).None? ==> r == OVERVIEW_CAMERA
    ensures FindIndexById(panels, Some(panelId)).Some? ==>
      var k := FindIndexById(panels, Some(panelId)).value;
      r.lookAt == GrammarLayout.Layout(panels)[k].position
      && r.position.Minus(r.lookAt) == Vec3(0.0, 0.0, 3.0)
  {
    var positions := GrammarLayout.Layout(panels);
    match FindIndexById(panels, Some(panelId))
    case None => OVERVIEW_CAMERA
    case Some(idx) =>
      var p := positions[idx].position;
      CameraTarget(Vec3(p.x, p.y, p.z + 3.0), Vec3(p.x, p.y, p.z))
  }

  /** The axis a move from `fromId` to `toId` runs along: Z when the detail
      levels differ, else Y when the segment distance exceeds the step
      distance, else X; X also when either end is missing. */
  function DetectAxis(panels: seq<Panel>, fromId: Option<string>, toId: string): Axis {
    if !Truthy(fromId) then X
    else
      var from, to := FindById(panels, fromId), FindById(panels, Some(toId));
      if from.None? || to.None? then X
      else
        var dx := Abs(from.value.semantic.processStep - to.value.semantic.processStep);
        var dy := Abs(SegOrZero(from.value.semantic.segment) - SegOrZero(to.value.semantic.segment));
        var dz := Abs(from.value.semantic.detailLevel - to.value.semantic.detailLevel);
        if dz > 0 then Z
        else if dy > dx then Y
        else X
  }

  function Abs(n: int): nat {
    if n < 0 then -n else n
  }

  /** `steps.slice(0, end)`, including JavaScript's reading of a negative end
      as counted from the back. */
  function Slice<T>(s: seq<T>, end: int): (r: seq<T>)
    ensures r <= s
  {
    if end >= |s| then s
    else if end >= 0 then s[..end]
    else if |s| + end > 0 then s[..|s| + end]
    else []
  }

  /** `steps.findIndex((s) => s.panelId === panelId)` */
  function FindStep(steps: seq<NavigationStep>, panelId: string): (r: Option<nat>)
    ensures r.Some? ==> r.value < |steps| && steps[r.value].panelId == panelId
    ensures r.Some? ==> forall j :: 0 <= j < r.value ==> steps[j].panelId != panelId
    ensures r.None? ==> forall j :: 0 <= j < |steps| ==> steps[j].panelId != panelId
  {
    if |steps| == 0 then None
    else if steps[0].panelId == panelId then Some(0)
    else match FindStep(steps[1..], panelId)
      case None => None
      case Some(k) => Some(k + 1)
  }

  /** The one-step path `[root]` entered along Z. */
  function RootStep(panels: seq<Panel>, root: Panel): NavigationStep {
    NavigationStep(root.id, Z, root.title, CameraForPanel(panels, root.id))
  }

  // ---------------------------------------------------------------------
  // The actions, as functions of the state

  function SetPanelsOp(s: StoreState, panels: seq<Panel>, overview: CameraTarget): StoreState {
    match FindRoot(panels)
    case None =>
      s.(panels := panels, visiblePanelIds := Ids(panels), focusedPanelId := None,
         cameraTarget := overview, navigation := EMPTY_NAV)
    case Some(r) =>
      var root := panels[r];
      var target := CameraForPanel(panels, root.id);
      s.(panels := panels, visiblePanelIds := Ids(panels), focusedPanelId := Some(root.id),
         cameraTarget := target, navigation := Navigation([RootStep(panels, root)], 0))
  }

  function NavigateToOp(s: StoreState, panelId: string, axis: Axis): StoreState {
    var target := CameraForPanel(s.panels, panelId);
    var panel := FindById(s.panels, Some(panelId));
    var currentPath := Slice(s.navigation.steps, s.navigation.currentIndex + 1);
    match FindStep(currentPath, panelId)
    case Some(existingIdx) =>
      s.(focusedPanelId := Some(panelId), cameraTarget := target, isTransitioning := true,
         navigation := Navigation(currentPath[..existingIdx + 1], existingIdx),
         visiblePanelIds := Ids(s.panels))
    case None =>
      var stepLabel := if panel.Some? then panel.value.title else panelId;
      var path := currentPath + [NavigationStep(panelId, axis, stepLabel, target)];
      s.(focusedPanelId := Some(panelId), cameraTarget := target, isTransitioning := true,
         navigation := Navigation(path, |path| - 1),
         visiblePanelIds := Ids(s.panels))
  }

  function FocusOp(s: StoreState, id: string): StoreState {
    if s.focusedPanelId == Some(id) then s
    else NavigateToOp(s, id, DetectAxis(s.panels, s.focusedPanelId, id))
  }

  function BackOp(s: StoreState): StoreState {
    if !Truthy(s.focusedPanelId) then s
    else
      var current := FindById(s.panels, s.focusedPanelId);
      if current.None? || !HasParent(current.value) then s
      else FocusOp(s, current.value.parentId.value)
  }

  /** A well-formed state never has a current index below -1. */
  predicate WellFormed(s: StoreState) {
    s.navigation.currentIndex >= -1
  }

  function ForwardOp(s: StoreState): StoreState
    requires WellFormed(s)
  {
    var nav := s.navigation;
    if nav.currentIndex >= |nav.steps| - 1 then s
    else
      var newIndex := nav.currentIndex + 1;
      var step := nav.steps[newIndex];
      s.(focusedPanelId := Some(step.panelId), cameraTarget := step.cameraTarget, isTransitioning := true,
         navigation := nav.(currentIndex := newIndex), visiblePanelIds := Ids(s.panels))
  }

  function HomeOp(s: StoreState): StoreState {
    match FindRoot(s.panels)
    case None => s
    case Some(r) =>
      var root := s.panels[r];
      s.(focusedPanelId := Some(root.id), cameraTarget := CameraForPanel(s.panels, root.id),
         isTransitioning := true, navigation := Navigation([RootStep(s.panels, root)], 0),
         visiblePanelIds := Ids(s.panels))
  }

  function ToStepOp(s: StoreState, index: int): StoreState {
    var nav := s.navigation;
    if index < 0 || index >= |nav.steps| then s
    else
      var step := nav.steps[index];
      s.(focusedPanelId := Some(step.panelId), cameraTarget := step.cameraTarget, isTransitioning := true,
         navigation := Navigation(nav.steps[..index + 1], index), visiblePanelIds := Ids(s.panels))
  }

  // ---------------------------------------------------------------------
  // The invariant every action keeps

  predicate DistinctSteps(steps: seq<NavigationStep>) {
    forall i, j :: 0 <= i < j < |steps| ==> steps[i].panelId != steps[j].panelId
  }

  /** The path ends at the current step, visits no panel twice, the focus is
      its last panel (none exactly when the path is empty), every stored
      camera is the one computed for its panel, and every panel is visible. */
  predicate Inv(s: StoreState) {
    var steps := s.navigation.steps;
    && s.navigation.currentIndex == |steps| - 1
    && DistinctSteps(steps)
    && (s.focusedPanelId.None? <==> |steps| == 0)
    && (|steps| > 0 ==>
          s.focusedPanelId == Some(steps[|steps| - 1].panelId)
          && s.cameraTarget == steps[|steps| - 1].cameraTarget)
    && (forall i :: 0 <= i < |steps| ==> steps[i].cameraTarget == CameraForPanel(s.panels, steps[i].panelId))
    && s.visiblePanelIds == Ids(s.panels)
  }

  lemma InitialInv()
    ensures Inv(INITIAL_STATE)
  {
  }

  lemma SetPanelsInv(s: StoreState, panels: seq<Panel>, overview: CameraTarget)
    ensures Inv(SetPanelsOp(s, panels, overview))
  {
  }

  /** Revisiting a panel on the path cuts the path back to it. */
  lemma NavigateToRevisitInv(s: StoreState, panelId: string, axis: Axis, k: nat)
    requires Inv(s) && FindStep(s.navigation.steps, panelId) == Some(k)
    ensures Inv(NavigateToOp(s, panelId, axis))
  {
    var steps := s.navigation.steps;
    assert Slice(steps, s.navigation.currentIndex + 1) == steps;
    var t := NavigateToOp(s, panelId, axis);
    assert t.navigation.steps == steps[..k + 1];
  }

  /** A panel not on the path is appended to it. */
  lemma NavigateToAppendInv(s: StoreState, panelId: string, axis: Axis)
    requires Inv(s) && FindStep(s.navigation.steps, panelId).None?
    ensures Inv(NavigateToOp(s, panelId, axis))
  {
    var steps := s.navigation.steps;
    assert Slice(steps, s.navigation.currentIndex + 1) == steps;
    var path := NavigateToOp(s, panelId, axis).navigation.steps;
    assert path[..|steps|] == steps;
    forall i, j | 0 <= i < j < |path| ensures path[i].panelId != path[j].panelId {
      if j < |steps| {
        assert path[i] == steps[i] && path[j] == steps[j];
      } else {
        assert path[i] == steps[i];
      }
    }
  }

  lemma NavigateToInv(s: StoreState, panelId: string, axis: Axis)
    requires Inv(s)
    ensures Inv(NavigateToOp(s, panelId, axis))
  {
    match FindStep(s.navigation.steps, panelId)
    case Some(k) => NavigateToRevisitInv(s, panelId, axis, k);
    case None => NavigateToAppendInv(s, panelId, axis);
  }

  lemma FocusInv(s: StoreState, id: string)
    requires Inv(s)
    ensures Inv(FocusOp(s, id))
  {
    if s.focusedPanelId != Some(id) {
      NavigateToInv(s, id, DetectAxis(s.panels, s.focusedPanelId, id));
    }
  }

  lemma BackInv(s: StoreState)
    requires Inv(s)
    ensures Inv(BackOp(s))
  {
    if Truthy(s.focusedPanelId) {
      var current := FindById(s.panels, s.focusedPanelId);
      if current.Some? && HasParent(current.value) {
        FocusInv(s, current.value.parentId.value);
      }
    }
  }

  lemma HomeInv(s: StoreState)
    requires Inv(s)
    ensures Inv(HomeOp(s))
  {
  }

  lemma ToStepInv(s: StoreState, index: int)
    requires Inv(s)
    ensures Inv(ToStepOp(s, index))
  {
    var steps := s.navigation.steps;
    if 0 <= index < |steps| {
      var t := ToStepOp(s, index).navigation.steps;
      assert forall i :: 0 <= i < |t| ==> t[i] == steps[i];
    }
  }

  // ---------------------------------------------------------------------
  // What the actions do

  /** Loading panels that include a rootless one focuses the first of them,
      with the one-step path `[root]` entered along Z at index 0. */
  lemma SetPanelsFocusesRoot(s: StoreState, panels: seq<Panel>, overview: CameraTarget, i: nat)
    requires i < |panels| && !HasParent(panels[i])
    ensures exists r ::
      && 0 <= r <= i && !HasParent(panels[r])
      && (forall j :: 0 <= j < r ==> HasParent(panels[j]))
      && (var t := SetPanelsOp(s, panels, overview);
         && t.panels == panels
         && t.visiblePanelIds == Ids(panels)
         && t.focusedPanelId == Some(panels[r].id)
         && t.navigation == Navigation([NavigationStep(panels[r].id, Z, panels[r].title, CameraForPanel(panels, panels[r].id))], 0)
         && t.cameraTarget == CameraForPanel(panels, panels[r].id))
  {
    var r := FindRoot(panels).value;
    assert r <= i;
    var t := SetPanelsOp(s, panels, overview);
    assert t.focusedPanelId == Some(panels[r].id);
  }

  /** Without a rootless panel nothing is focused, the path is empty with
      index -1, and the camera is the overview. */
  lemma SetPanelsWithoutRoot(s: StoreState, panels: seq<Panel>, overview: CameraTarget)
    requires forall i :: 0 <= i < |panels| ==> HasParent(panels[i])
    ensures var t := SetPanelsOp(s, panels, overview);
      && t.panels == panels
      && t.visiblePanelIds == Ids(panels)
      && t.focusedPanelId.None?
      && t.navigation == Navigation([], -1)
      && t.cameraTarget == overview
  {
  }

  /** Navigating to a panel already on the path cuts the path back to its
      (only) occurrence and focuses it. */
  lemma NavigateToRevisit(s: StoreState, panelId: string, axis: Axis, k: nat)
    requires Inv(s)
    requires k < |s.navigation.steps| && s.navigation.steps[k].panelId == panelId
    ensures var t := NavigateToOp(s, panelId, axis);
      && t.navigation.steps == s.navigation.steps[..k + 1]
      && t.navigation.currentIndex == k
      && t.focusedPanelId == Some(panelId)
      && t.isTransitioning
  {
    assert Slice(s.navigation.steps, s.navigation.currentIndex + 1) == s.navigation.steps;
  }

  /** Navigating to a panel not on the path appends exactly one step, labelled
      with the panel's title, or with the id itself when no panel has it. */
  lemma NavigateToAppend(s: StoreState, panelId: string, axis: Axis)
    requires Inv(s)
    requires forall i :: 0 <= i < |s.navigation.steps| ==> s.navigation.steps[i].panelId != panelId
    ensures var t := NavigateToOp(s, panelId, axis);
      var panel := FindById(s.panels, Some(panelId));
      && t.navigation.steps == s.navigation.steps
           + [NavigationStep(panelId, axis, if panel.Some? then panel.value.title else panelId,
                             CameraForPanel(s.panels, panelId))]
      && t.navigation.currentIndex == |s.navigation.steps|
      && t.focusedPanelId == Some(panelId)
  {
    assert Slice(s.navigation.steps, s.navigation.currentIndex + 1) == s.navigation.steps;
  }

  /** An id no panel carries is not rejected: it is appended with the id as
      its label and the overview camera. */
  lemma NavigateToUnknownId(s: StoreState, panelId: string, axis: Axis)
    requires Inv(s)
    requires forall i :: 0 <= i < |s.panels| ==> s.panels[i].id != panelId
    requires forall i :: 0 <= i < |s.navigation.steps| ==> s.navigation.steps[i].panelId != panelId
    ensures var t := NavigateToOp(s, panelId, axis);
      && t.navigation.steps == s.navigation.steps + [NavigationStep(panelId, axis, panelId, OVERVIEW_CAMERA)]
      && t.focusedPanelId == Some(panelId)
      && t.cameraTarget == OVERVIEW_CAMERA
  {
    NavigateToAppend(s, panelId, axis);
  }

  /** A -> B -> C -> A collapses the path back to `[A]`. */
  lemma RevisitCollapses(s: StoreState, b: string, c: string, ax1: Axis, ax2: Axis, ax3: Axis)
    requires Inv(s) && |s.navigation.steps| == 1
    requires b != s.navigation.steps[0].panelId && c != s.navigation.steps[0].panelId && b != c
    ensures var a := s.navigation.steps[0].panelId;
      var t := NavigateToOp(NavigateToOp(NavigateToOp(s, b, ax1), c, ax2), a, ax3);
      t.navigation.steps == s.navigation.steps && t.navigation.currentIndex == 0 && t.focusedPanelId == Some(a)
  {
    var a := s.navigation.steps[0].panelId;
    var s1 := NavigateToOp(s, b, ax1);
    NavigateToAppend(s, b, ax1);
    NavigateToInv(s, b, ax1);
    var s2 := NavigateToOp(s1, c, ax2);
    NavigateToAppend(s1, c, ax2);
    NavigateToInv(s1, c, ax2);
    assert s2.navigation.steps[0] == s.navigation.steps[0];
    NavigateToRevisit(s2, a, ax3, 0);
  }

  /** Focusing the focused panel changes nothing, so focusing twice is focusing once. */
  lemma FocusIdempotent(s: StoreState, id: string)
    ensures FocusOp(s, id).focusedPanelId == Some(id)
    ensures FocusOp(FocusOp(s, id), id) == FocusOp(s, id)
  {
  }

  /** Back does nothing without a truthy focus, for an unknown focused id, or
      at a panel without a parent; otherwise it focuses the parent, cutting
      the path back to it when it is on the path and appending it otherwise. */
  lemma BackToParent(s: StoreState)
    requires Inv(s)
    ensures !Truthy(s.focusedPanelId) ==> BackOp(s) == s
    ensures FindById(s.panels, s.focusedPanelId).None? ==> BackOp(s) == s
    ensures FindById(s.panels, s.focusedPanelId).Some? && !HasParent(FindById(s.panels, s.focusedPanelId).value)
      ==> BackOp(s) == s
    ensures (Truthy(s.focusedPanelId) && FindById(s.panels, s.focusedPanelId).Some?
             && HasParent(FindById(s.panels, s.focusedPanelId).value)) ==>
        var parent := FindById(s.panels, s.focusedPanelId).value.parentId.value;
        var steps := s.navigation.steps;
        var t := BackOp(s);
        && t.focusedPanelId == Some(parent)
        && ((exists k :: 0 <= k < |steps| && steps[k].panelId == parent) ==>
              |t.navigation.steps| <= |steps| && t.navigation.steps <= steps)
        && ((forall k :: 0 <= k < |steps| ==> steps[k].panelId != parent) ==>
              |t.navigation.steps| == |steps| + 1 && steps <= t.navigation.steps
              && t.navigation.steps[|steps|].panelId == parent)
  {
    if Truthy(s.focusedPanelId) {
      var current := FindById(s.panels, s.focusedPanelId);
      if current.Some? && HasParent(current.value) {
        var parent := current.value.parentId.value;
        var steps := s.navigation.steps;
        if s.focusedPanelId == Some(parent) {
          assert steps[|steps| - 1].panelId == parent;
        } else {
          var axis := DetectAxis(s.panels, s.focusedPanelId, parent);
          if k :| 0 <= k < |steps| && steps[k].panelId == parent {
            NavigateToRevisit(s, parent, axis, k);
          } else {
            NavigateToAppend(s, parent, axis);
          }
        }
      }
    }
  }

  /** In every state the invariant allows, navigating forward changes nothing. */
  lemma ForwardNeverFires(s: StoreState)
    requires Inv(s)
    ensures WellFormed(s) && ForwardOp(s) == s
  {
  }

  /** Home resets the path to `[root]`, and is a no-op without a root. */
  lemma HomeResets(s: StoreState)
    ensures FindRoot(s.panels).None? ==> HomeOp(s) == s
    ensures FindRoot(s.panels).Some? ==>
      var root := s.panels[FindRoot(s.panels).value];
      && !HasParent(root)
      && HomeOp(s).navigation == Navigation([RootStep(s.panels, root)], 0)
      && HomeOp(s).focusedPanelId == Some(root.id)
      && HomeOp(s).panels == s.panels
  {
  }

  /** Jumping to step i keeps the path up to i and restores that step's
      focus and camera; an index outside the path is ignored. */
  lemma ToStepTruncates(s: StoreState, index: int)
    ensures !(0 <= index < |s.navigation.steps|) ==> ToStepOp(s, index) == s
    ensures 0 <= index < |s.navigation.steps| ==>
      var t := ToStepOp(s, index);
      && |t.navigation.steps| == index + 1
      && t.navigation.steps <= s.navigation.steps
      && t.navigation.currentIndex == index
      && t.focusedPanelId == Some(s.navigation.steps[index].panelId)
      && t.cameraTarget == s.navigation.steps[index].cameraTarget
  {
  }

  // ---------------------------------------------------------------------
  // The store object

  class Store {
    var panels: seq<Panel>
    var focusedPanelId: Option<string>
    var steps: seq<NavigationStep>
    var currentIndex: int
    var visiblePanelIds: seq<string>
    var cameraTarget: CameraTarget
    var isTransitioning: bool
    var isDragging: bool

    function State(): StoreState
      reads this
    {
      StoreState(panels, focusedPanelId, Navigation(steps, currentIndex), visiblePanelIds,
                 cameraTarget, isTransitioning, isDragging)
    }

    predicate Valid()
      reads this
    {
      Inv(State())
    }

    constructor ()
      ensures State() == INITIAL_STATE
      ensures Valid()
    {
      panels := [];
      focusedPanelId := None;
      steps, currentIndex := [], -1;
      visiblePanelIds := [];
      cameraTarget := OVERVIEW_CAMERA;
      isTransitioning, isDragging := false, false;
    }

    /** `overview` is the camera computed from the whole layout, used when
        there is no root panel. */
    method SetPanels(newPanels: seq<Panel>, overview: CameraTarget)
      modifies this
      ensures State() == SetPanelsOp(old(State()), newPanels, overview)
      ensures Valid()
    {
      var root := FindRoot(newPanels);
      var target := if root.Some? then CameraForPanel(newPanels, newPanels[root.value].id) else overview;
      panels := newPanels;
      visiblePanelIds := Ids(newPanels);
      focusedPanelId := if root.Some? then Some(newPanels[root.value].id) else None;
      cameraTarget := target;
      if root.Some? {
        steps, currentIndex := [RootStep(newPanels, newPanels[root.value])], 0;
      } else {
        steps, currentIndex := EMPTY_NAV.steps, EMPTY_NAV.currentIndex;
      }
      SetPanelsInv(old(State()), newPanels, overview);
    }

    /** The `set({...})` every navigating action ends with: a new focus,
        camera and path, the transition flag raised and every panel visible. */
    method SetView(focus: Option<string>, camera: CameraTarget, nav: Navigation, visible: seq<string>)
      modifies this
      ensures State() == old(State()).(focusedPanelId := focus, cameraTarget := camera, isTransitioning := true,
                                       navigation := nav, visiblePanelIds := visible)
    {
      focusedPanelId := focus;
      cameraTarget := camera;
      isTransitioning := true;
      steps, currentIndex := nav.steps, nav.currentIndex;
      visiblePanelIds := visible;
    }

    method NavigateTo(panelId: string, axis: Axis)
      requires Valid()
      modifies this
      ensures State() == NavigateToOp(old(State()), panelId, axis)
      ensures Valid()
    {
      NavigateToInv(State(), panelId, axis);
      var target := CameraForPanel(panels, panelId);
      var panel := FindById(panels, Some(panelId));
      var currentPath := Slice(steps, currentIndex + 1);
      var existingIdx := FindStep(currentPath, panelId);
      if existingIdx.Some? {
        SetView(Some(panelId), target, Navigation(currentPath[..existingIdx.value + 1], existingIdx.value), Ids(panels));
        return;
      }
      var stepLabel := if panel.Some? then panel.value.title else panelId;
      currentPath := currentPath + [NavigationStep(panelId, axis, stepLabel, target)];
      SetView(Some(panelId), target, Navigation(currentPath, |currentPath| - 1), Ids(panels));
    }

    method FocusPanel(id: string)
      requires Valid()
      modifies this
      ensures State() == FocusOp(old(State()), id)
      ensures Valid()
    {
      if focusedPanelId == Some(id) {
        return;
      }
      var axis := DetectAxis(panels, focusedPanelId, id);
      NavigateTo(id, axis);
    }

    method NavigateBack()
      requires Valid()
      modifies this
      ensures State() == BackOp(old(State()))
      ensures Valid()
    {
      if !Truthy(focusedPanelId) {
        return;
      }
      var current := FindById(panels, focusedPanelId);
      if current.None? || !HasParent(current.value) {
        return;
      }
      FocusPanel(current.value.parentId.value);
    }

    method NavigateForward()
      requires WellFormed(State())
      modifies this
      ensures State() == ForwardOp(old(State()))
    {
      if currentIndex >= |steps| - 1 {
        return;
      }
      var newIndex := currentIndex + 1;
      var step := steps[newIndex];
      SetView(Some(step.panelId), step.cameraTarget, Navigation(steps, newIndex), Ids(panels));
    }

    method NavigateHome()
      requires Valid()
      modifies this
      ensures State() == HomeOp(old(State()))
      ensures Valid()
    {
      HomeInv(State());
      var root := FindRoot(panels);
      if root.None? {
        return;
      }
      var r := panels[root.value];
      var target := CameraForPanel(panels, r.id);
      SetView(Some(r.id), target, Navigation([RootStep(panels, r)], 0), Ids(panels));
    }

    /** `unfocus` is `navigateHome`. */
    method Unfocus()
      requires Valid()
      modifies this
      ensures State() == HomeOp(old(State()))
      ensures Valid()
    {
      NavigateHome();
    }

    method NavigateToStep(index: int)
      requires Valid()
      modifies this
      ensures State() == ToStepOp(old(State()), index)
      ensures Valid()
    {
      ToStepInv(State(), index);
      if index < 0 || index >= |steps| {
        return;
      }
      var step := steps[index];
      SetView(Some(step.panelId), step.cameraTarget, Navigation(steps[..index + 1], index), Ids(panels));
    }

    method SetTransitioning(b: bool)
      requires Valid()
      modifies this
      ensures State() == old(State()).(isTransitioning := b)
      ensures Valid()
    {
      isTransitioning := b;
    }

    method SetDragging(b: bool)
      requires Valid()
      modifies this
      ensures State() == old(State()).(isDragging := b)
      ensures Valid()
    {
      isDragging := b;
    }
  }
}
