# Spatial navigation engine of a 3D analytics dashboard, in Dafny

This project models the core of a 3D analytics dashboard, a React and Three.js
application. The dashboard lays its chart panels out in space along three
semantic axes:

- X is the pipeline stage (`processStep`);
- Y is the customer segment;
- Z is the drill-down depth (`detailLevel`).

Users move between panels with the keyboard, on-screen buttons, VR controllers, gaze or the mouse. The model covers:

- the navigation history store: panels, focus, a linear path of steps, camera target, transition and drag flags. It is a class whose invariant (distinct step ids, index on the last step, focus on that step's panel) every action keeps;
- the semantic grammar layout, and neighbour resolution along X, Y and Z (`findNeighbor`, the on-screen helper's targets, the VR guide flags);
- discrete input gating. This includes the VR cooldown gates and dead zones, per-axis controller cooldowns, the button masks, the gaze trigger's edge detector, mouse drag-versus-click arbitration, and the camera's overview save and restore;
- smaller cores:
  - the panel-tree fixture and its causal links;
  - the embed drill maps and the iframe message dispatch;
  - the chart registry, the room layout and the viewport classes;
  - axis-label de-duplication and the greedy word wrap of the fallback texture;
  - the PNG encoder of the icon script. It follows sections 3 and 4 of RFC 2083: chunk framing, the table-driven CRC-32 against the bitwise CRC, the IHDR layout and the scanline buffer.

Stateful code is modelled as classes or methods with loops. Each is proved against a specification function, and the properties are lemmas about those functions. Time (`now` in ms), stick values, pointer coordinates, ray-cast hits and the text measure are all parameters.

## Model

| member | source | states |
|---|---|---|
| Panels.FindIndexById | src/store/dashboardStore.ts:19 | the index of the first panel with the id, or none exactly when no panel has it; a null id matches nothing |
| Panels.FindRoot | src/store/dashboardStore.ts:103 | the index of the first panel without a (truthy) `parentId`, or none exactly when every panel has one |
| Panels.Ids | src/store/dashboardStore.ts:83-85 | one id per panel, index-aligned: every panel id, so every panel is visible |
| Panels.Filter | src/hooks/useKeyboardNavigation.ts:19-24 | `filter`: exactly the elements that pass, each of them passing, no more than the input; order and multiplicity are stated by `FilterOrder` |
| Panels.PassingIndices | src/hooks/useKeyboardNavigation.ts:19-24 | the indices whose element passes the `filter` predicate: every one of them, strictly increasing |
| Panels.FilterSnoc | src/hooks/useKeyboardNavigation.ts:19-24 | filtering a list extended by one element appends that element exactly when it passes |
| Panels.FilterOrder | src/hooks/useKeyboardNavigation.ts:19-24 | `filter` keeps order and multiplicity: its k-th element is the input's element at the k-th passing index |
| Panels.FilterPosition | src/hooks/useKeyboardNavigation.ts:19-24 | a filtered element's input index; passing elements before it in the input come before it in the result, and those after it come after |
| StableSort.Insert | src/hooks/useKeyboardNavigation.ts:25 | one insertion step of the stable sort: the old elements plus the new one, as a multiset |
| StableSort.SortBy | src/hooks/useKeyboardNavigation.ts:25 | `sort` by key is a permutation of its input |
| StableSort.Reverse | src/hooks/useKeyboardNavigation.ts:29 | `reverse`: element `i` is element `n - 1 - i` of the input |
| StableSort.SortBySorted | src/hooks/useKeyboardNavigation.ts:25 | the sorted copy is ordered by key |
| StableSort.SortByStable | src/hooks/useKeyboardNavigation.ts:25 | the sort is stable: the elements of any one key keep their input order |
| StableSort.SortedFindIsNearestAbove | src/hooks/useKeyboardNavigation.ts:25-27 | `find(key > k)` on the sorted copy is the reference choice: the least key above `k`, first in input order among equals |
| StableSort.SortedReverseFindIsNearestBelow | src/hooks/useKeyboardNavigation.ts:25-29 | `find(key < k)` on the reversed sorted copy is the greatest key below `k`, last in input order among equals |
| StableSort.NearestAboveMeaning | src/hooks/useKeyboardNavigation.ts:27 | the reference choice finds something iff some key exceeds `k`; it has the least such key and no earlier element shares that key |
| StableSort.NearestBelowMeaning | src/hooks/useKeyboardNavigation.ts:29 | the reference choice finds something iff some key is below `k`; it has the greatest such key and no later element shares that key |
| GrammarLayout.MaxOf | src/layouts/grammarLayout.ts:21 | `Math.max` of a non-empty list is in the list and bounds every element |
| GrammarLayout.Steps | src/layouts/grammarLayout.ts:21 | the processSteps of the panels, index-aligned |
| GrammarLayout.SegmentValues | src/layouts/grammarLayout.ts:24-26 | exactly the non-null segments of the panels |
| GrammarLayout.Layout | src/layouts/grammarLayout.ts:17-42 | one position per panel |
| GrammarLayout.LayoutShape | src/layouts/grammarLayout.ts:18-40 | the empty list lays out as empty; every position has zero rotation and scale 1 |
| GrammarLayout.LayoutCoordinates | src/layouts/grammarLayout.ts:29-35 | x = 4 step - 2 maxStep, y = 3 (segment ?? 0) - 1.5 maxSegment, z = -8 - 4 detailLevel |
| GrammarLayout.XCentred | src/layouts/grammarLayout.ts:21-32 | x strictly increases with the step; step 0 and maxStep land at -2 maxStep and +2 maxStep; steps summing to maxStep sit symmetrically about 0 |
| GrammarLayout.StepsZeroAndTwo | src/layouts/grammarLayout.ts:21-32 | with steps {0, 2}, one panel is left of x = 0 and the other right of it |
| GrammarLayout.MaxSegmentOfNonNull | src/layouts/grammarLayout.ts:24-27 | maxSegment is 0 when every segment is null, bounds every non-null segment, and is one of them when there is one |
| GrammarLayout.YAndZOrder | src/layouts/grammarLayout.ts:33-34 | y strictly increases with (segment ?? 0); z strictly decreases as the detail level deepens |
| GrammarLayout.MaxOfUnique | src/layouts/grammarLayout.ts:21-27 | the maximum depends only on which values are present, not on their order or repetition |
| GrammarLayout.LayoutPermutation | src/layouts/grammarLayout.ts:17-42 | permuting the panels permutes their positions the same way |
| DashboardStore.CameraForPanel | src/store/dashboardStore.ts:14-27 | the camera looks at the panel's layout position from 3 units further along +Z; an id no panel has gives the overview camera |
| DashboardStore.FindStep | src/store/dashboardStore.ts:136 | the index of the first step carrying the id, or none exactly when no step carries it |
| DashboardStore.InitialInv | src/store/dashboardStore.ts:87-94 | the initial store (nothing focused, empty path at index -1) meets the invariant: distinct step ids, index on the last step, focus on that step's panel |
| DashboardStore.SetPanelsInv | src/store/dashboardStore.ts:102-114 | `setPanels` establishes the invariant from any state |
| DashboardStore.NavigateToRevisitInv | src/store/dashboardStore.ts:135-146 | the truncating branch of `navigateTo` keeps the invariant |
| DashboardStore.NavigateToAppendInv | src/store/dashboardStore.ts:149-163 | the appending branch of `navigateTo` keeps the invariant |
| DashboardStore.NavigateToInv | src/store/dashboardStore.ts:127-164 | `navigateTo` keeps the invariant |
| DashboardStore.FocusInv | src/store/dashboardStore.ts:116-121 | `focusPanel` keeps the invariant |
| DashboardStore.BackInv | src/store/dashboardStore.ts:166-173 | `navigateBack` keeps the invariant |
| DashboardStore.HomeInv | src/store/dashboardStore.ts:189-204 | `navigateHome` keeps the invariant |
| DashboardStore.ToStepInv | src/store/dashboardStore.ts:206-219 | `navigateToStep` keeps the invariant |
| DashboardStore.SetPanelsFocusesRoot | src/store/dashboardStore.ts:102-114 | with a rootless panel, the first one is focused, every panel is visible and the path is the single Z step to it at index 0 |
| DashboardStore.SetPanelsWithoutRoot | src/store/dashboardStore.ts:102-114 | without a rootless panel nothing is focused, the path is empty at index -1 and the camera is the overview |
| DashboardStore.NavigateToRevisit | src/store/dashboardStore.ts:133-146 | navigating to a panel on the path cuts the path back to it, sets the index there, focuses it and starts a transition |
| DashboardStore.NavigateToAppend | src/store/dashboardStore.ts:149-163 | navigating to a panel off the path appends exactly one step labelled with its title (or the id), and the index moves onto it |
| DashboardStore.NavigateToUnknownId | src/store/dashboardStore.ts:127-164 | an id no panel has is not rejected: it is appended with the id as label and the overview camera, and focused |
| DashboardStore.RevisitCollapses | src/store/dashboardStore.ts:133-146 | A, B, C, then A again leaves the path `[A]` at index 0 |
| DashboardStore.FocusIdempotent | src/store/dashboardStore.ts:116-121 | `focusPanel(id)` focuses `id`, and a second call changes nothing |
| DashboardStore.BackToParent | src/store/dashboardStore.ts:166-173 | back is a no-op without focus, for an unknown focus or a rootless focus; otherwise it is `focusPanel(parentId)`: a cut back to the parent when on the path, an appended parent step when not |
| DashboardStore.ForwardNeverFires | src/store/dashboardStore.ts:175-187 | in every state satisfying the invariant `navigateForward` changes nothing |
| DashboardStore.HomeResets | src/store/dashboardStore.ts:189-204 | home is a no-op without a root; otherwise the path becomes the single root step at index 0 and the root is focused |
| DashboardStore.ToStepTruncates | src/store/dashboardStore.ts:206-219 | an index outside the path is ignored; otherwise the path is its prefix up to `i`, the index is `i`, and that step's focus and camera are restored |
| DashboardStore.Store.constructor | src/store/dashboardStore.ts:87-94 | the store starts in the initial state and is valid |
| DashboardStore.Store.SetPanels | src/store/dashboardStore.ts:102-114 | the new state is `SetPanelsOp` of the old one, and the store stays valid |
| DashboardStore.Store.NavigateTo | src/store/dashboardStore.ts:127-164 | the new state is `NavigateToOp` of the old one, and the store stays valid |
| DashboardStore.Store.FocusPanel | src/store/dashboardStore.ts:116-121 | the new state is `FocusOp` of the old one (no-op on the focused id, else `navigateTo` along the detected axis), and the store stays valid |
| DashboardStore.Store.NavigateBack | src/store/dashboardStore.ts:166-173 | the new state is `BackOp` of the old one, and the store stays valid |
| DashboardStore.Store.NavigateForward | src/store/dashboardStore.ts:175-187 | the new state is `ForwardOp` of the old one, which steps the index forward only when it is not on the last step |
| DashboardStore.Store.NavigateHome | src/store/dashboardStore.ts:189-204 | the new state is `HomeOp` of the old one, and the store stays valid |
| DashboardStore.Store.Unfocus | src/store/dashboardStore.ts:123-125 | `unfocus` does exactly what `navigateHome` does |
| DashboardStore.Store.NavigateToStep | src/store/dashboardStore.ts:206-219 | the new state is `ToStepOp` of the old one, and the store stays valid |
| DashboardStore.Store.SetTransitioning | src/store/dashboardStore.ts:221 | only the transition flag changes |
| DashboardStore.Store.SetDragging | src/store/dashboardStore.ts:222 | only the dragging flag changes |
| KeyboardNavigation.FindSegment | src/hooks/useKeyboardNavigation.ts:62 | the first candidate whose segment (null as 0) is the given one, or none exactly when no candidate has it |
| KeyboardNavigation.RightIsNearest | src/hooks/useKeyboardNavigation.ts:17-27 | the sort-then-find search forward along X equals the reference "nearest step above" over the X candidates |
| KeyboardNavigation.LeftIsNearest | src/hooks/useKeyboardNavigation.ts:17-30 | the sort-reverse-find search backward along X equals the reference "nearest step below" |
| KeyboardNavigation.UpIsNearest | src/hooks/useKeyboardNavigation.ts:33-44 | the search up along Y equals the reference "nearest segment above" over the Y candidates |
| KeyboardNavigation.DownIsNearest | src/hooks/useKeyboardNavigation.ts:33-46 | the search down along Y equals the reference "nearest segment below" |
| KeyboardNavigation.FindNeighborRight | src/hooks/useKeyboardNavigation.ts:17-27 | a neighbour exists iff some panel in the same row and depth has a larger step; it is such a panel with the smallest such step, and no panel earlier in `panels` that passes the same filter has its step |
| KeyboardNavigation.FindNeighborLeft | src/hooks/useKeyboardNavigation.ts:17-30 | a neighbour exists iff some panel in the same row and depth has a smaller step; it has the largest such step, and no panel later in `panels` that passes the same filter has its step |
| KeyboardNavigation.FindNeighborUp | src/hooks/useKeyboardNavigation.ts:33-44 | a neighbour exists iff some panel in the same column and depth with a non-null segment lies above; it has a non-null segment, the nearest one above, and no earlier candidate in `panels` shares it |
| KeyboardNavigation.FindNeighborDown | src/hooks/useKeyboardNavigation.ts:33-46 | as up, for the nearest non-null segment below, and no later candidate in `panels` shares it |
| KeyboardNavigation.DepthIsPreferRow | src/hooks/useKeyboardNavigation.ts:50-64 | along Z: nothing above level 0, otherwise the row-preferring choice among the column's panels at the target level |
| KeyboardNavigation.PreferRowMeaning | src/hooks/useKeyboardNavigation.ts:59-64 | a result exists iff there are candidates; it is the first in the current row when there is one, else the first candidate |
| KeyboardNavigation.FindNeighborDepthExists | src/hooks/useKeyboardNavigation.ts:50-59 | no neighbour above level 0; otherwise one exists iff the column has a panel at the target level, and it is such a panel |
| KeyboardNavigation.FindNeighborDepthChoice | src/hooks/useKeyboardNavigation.ts:60-64 | the depth neighbour is the first candidate in the current row if any, else the first candidate; `parentId` plays no part |
| KeyboardNavigation.NeighborNeverSelf | src/hooks/useKeyboardNavigation.ts:17-65 | the neighbour is a panel of the list and never the current panel |
| KeyboardNavigation.DetectAxisCases | src/store/dashboardStore.ts:63-80 | a change of depth reads as Z, of row alone as Y, of column alone as X |
| KeyboardNavigation.NeighborDiffers | src/hooks/useKeyboardNavigation.ts:17-65 | an X neighbour shares row and depth and differs in step; a Y neighbour shares column and depth and differs in row; a Z neighbour differs in depth |
| KeyboardNavigation.NeighborAxisDetected | src/store/dashboardStore.ts:63-80 | with unique ids, the store's detected axis for a move to a neighbour is the axis it was found along |
| KeyboardNavigation.FindVisible | src/hooks/useKeyboardNavigation.ts:90 | the first panel whose id is visible, or none exactly when no panel is |
| KeyboardNavigation.KeyDispatch | src/hooks/useKeyboardNavigation.ts:80-139 | text-field keys and unbound keys do nothing; `,` and `<` go back only with a focused panel; Backspace always goes back; Home goes home |
| KeyboardNavigation.MoveKeysFollowNeighbors | src/hooks/useKeyboardNavigation.ts:86-123 | the arrow, `.` and `>` keys step from the focused panel along their axis; with no focus only ArrowRight acts, by focusing the first visible panel |
| KeyboardNavigation.ArrowRightWithoutFocus | src/hooks/useKeyboardNavigation.ts:87-92 | ArrowRight with nothing focused focuses the first panel |
| KeyboardNavigation.StepInv | src/hooks/useKeyboardNavigation.ts:94-95 | a neighbour step keeps the store invariant |
| KeyboardNavigation.KeyInv | src/hooks/useKeyboardNavigation.ts:80-141 | every key keeps the store invariant |
| KeyboardNavigation.MoveAlong | src/hooks/useKeyboardNavigation.ts:94-95 | the store ends in `Step` of its old state: `navigateTo` the neighbour along its axis when there is one, unchanged otherwise |
| KeyboardNavigation.HandleKeyDown | src/hooks/useKeyboardNavigation.ts:80-141 | the store ends in the state the key's command gives from its old state, and stays valid |
| NavigationHelper.ParentOf | src/components/ui/NavigationHelper.tsx:25-27 | the panel named by a truthy `parentId`; none exactly when there is no parent or it is dangling |
| NavigationHelper.ChildrenOf | src/components/ui/NavigationHelper.tsx:28 | exactly the panels whose `parentId` is the current panel's id, in list order and with multiplicity: the k-th child is the panel at the k-th such index |
| NavigationHelper.Click | src/components/ui/NavigationHelper.tsx:75-76 | a button without a target does nothing; one with a target navigates to it along the button's axis |
| NavigationHelper.ChildButtons | src/components/ui/NavigationHelper.tsx:196-207 | one Z button per child, in list order |
| NavigationHelper.HelperMatchesKeyboard | src/components/ui/NavigationHelper.tsx:16-24 | left/right are the keyboard's X -1/+1 neighbours and up/down its Y +1/-1; with no focused panel every target is empty |
| NavigationHelper.CompactLayout | src/components/ui/NavigationHelper.tsx:98-110 | compact mode has six buttons with fixed axes Z, X, X, Y, Y, Z; the last drills into the first child, and is disabled without children |
| NavigationHelper.FullButtonsEnabled | src/components/ui/NavigationHelper.tsx:136-207 | full mode shows only enabled buttons: one per present neighbour, then one Z button per child in list order |
| NavigationHelper.FirstChildIsNotDepthNeighbor | src/components/ui/NavigationHelper.tsx:63 | a three-panel example where the compact drill-in target (first child) differs from the keyboard's Z +1 neighbour |
| NavigationGuides.StepLabel | src/components/scene/VRNavigationGuides.tsx:35-36 | the fallback when no level-0 panel is at the step; otherwise the title of the FIRST such panel in list order, or the fallback when that title is empty; never empty when the fallback is not |
| NavigationGuides.NothingWithoutFocus | src/components/scene/VRNavigationGuides.tsx:13-40 | without a focused panel every direction flag is false, there are no labels and nothing renders |
| NavigationGuides.OpenDirectionHasNeighbor | src/components/scene/VRNavigationGuides.tsx:21-25 | with unique ids, each open lateral direction has a keyboard neighbour that way |
| NavigationGuides.LeftArrowHasNeighbor | src/components/scene/VRNavigationGuides.tsx:22 | the left flag implies a keyboard neighbour at X -1 |
| NavigationGuides.RightArrowHasNeighbor | src/components/scene/VRNavigationGuides.tsx:23 | the right flag implies a keyboard neighbour at X +1 |
| NavigationGuides.UpArrowHasNeighbor | src/components/scene/VRNavigationGuides.tsx:24 | the up flag implies a keyboard neighbour at Y +1 |
| NavigationGuides.DownArrowHasNeighbor | src/components/scene/VRNavigationGuides.tsx:25 | the down flag implies a keyboard neighbour at Y -1 |
| NavigationGuides.GapHidesLeftArrow | src/components/scene/VRNavigationGuides.tsx:22 | the converse fails: across a gap in steps the keyboard finds a left neighbour while the left flag is false |
| NavigationGuides.DrillFlagsMatchHelper | src/components/scene/VRNavigationGuides.tsx:26-27 | "in" holds iff the helper lists children; a drill-out target implies "out"; a dangling `parentId` shows "out" with no target |
| NavigationGuides.LabelsNonEmpty | src/components/scene/VRNavigationGuides.tsx:31-38 | the left and right labels are never empty |
| Cooldown.Replay | src/hooks/useVRNavigation.ts:48-49 | one verdict per poll of a cooldown gate that stamps the time whenever it opens |
| Cooldown.PassIsAfterStamp | src/hooks/useVRNavigation.ts:48-49 | every poll that passes comes at least the gap after the initial stamp |
| Cooldown.PassesAreSpaced | src/hooks/useVRNavigation.ts:48-49 | any two polls that pass are at least the gap apart |
| Cooldown.OnePassPerWindow | src/components/scene/VRControllerInput.tsx:28-29 | two polls closer than the gap never both pass |
| VRNavigation.Locomotion.constructor | src/hooks/useVRNavigation.ts:64-65 | locomotion starts with zero offset and zero yaw |
| VRNavigation.Locomotion.Reset | src/hooks/useVRNavigation.ts:64-65 | the offset becomes zero and the yaw zero |
| VRNavigation.SnapDelta | src/hooks/useVRNavigation.ts:130 | the snap is one step of pi/6, negative exactly when the stick points right |
| VRNavigation.DrillIntent | src/hooks/useVRNavigation.ts:134-137 | a drill fires iff abs(y) > 0.5 and abs(y) > abs(x); it goes deeper exactly when y < 0 |
| VRNavigation.VRNavigator.constructor | src/hooks/useVRNavigation.ts:39-40 | both stamps start at 0 |
| VRNavigation.VRNavigator.NavigateAxis | src/hooks/useVRNavigation.ts:46-67 | inside the 400 ms window nothing changes; otherwise the stamp becomes `now` even without a focused panel, Z -1 goes back, and a found neighbour is navigated to with the locomotion reset |
| VRNavigation.VRNavigator.RightStickFrame | src/hooks/useVRNavigation.ts:120-139 | the snap stamp moves and the yaw turns by one step exactly when the snap fires; without a drill intent, or with one behind a closed 400 ms gate, nothing else changes; with an open gate the nav stamp is `now`, the store takes the Z step's effect, and the locomotion is reset exactly when that step found a neighbour, keeping the post-snap yaw otherwise |
| VRNavigation.VRNavigator.Squeeze | src/hooks/useVRNavigation.ts:70-91 | a press goes back with no cooldown and resets the locomotion; no press changes nothing |
| VRNavigation.AxisEffectCases | src/hooks/useVRNavigation.ts:51-66 | without focus nothing changes; Z -1 is `navigateBack`; otherwise the store navigates and locomotion resets exactly when a neighbour exists; the invariant is kept |
| VRNavigation.DrillOutGoesToParent | src/hooks/useVRNavigation.ts:55-58 | drilling out from a panel with a parent focuses that parent |
| VRNavigation.DeadZone | src/hooks/useVRNavigation.ts:128-134 | a stick within the dead zones neither turns nor drills, and a sideways-dominant push never drills |
| VRNavigation.SnapsAreSpaced | src/hooks/useVRNavigation.ts:128-129 | two snap turns are more than 300 ms apart |
| VRNavigation.StepsAreSpaced | src/hooks/useVRNavigation.ts:48-49 | two axis steps are at least 400 ms apart |
| VRControllerInput.LeftXDirection | src/components/scene/VRControllerInput.tsx:56 | the X step is +1 exactly when x > 0 |
| VRControllerInput.LeftYDirection | src/components/scene/VRControllerInput.tsx:62 | the left stick's Y is inverted: +1 exactly when y is not positive |
| VRControllerInput.RightYDirection | src/components/scene/VRControllerInput.tsx:83 | the right stick's Z step is +1 exactly when y > 0 |
| VRControllerInput.Slot | src/components/scene/VRControllerInput.tsx:115-116 | `left[k] || right[k]` on button slots: missing only when neither controller has slot `k`, and the left controller's whenever it has one |
| VRControllerInput.ControllerInput.constructor | src/components/scene/VRControllerInput.tsx:23 | the three per-axis stamps start at 0 |
| VRControllerInput.ControllerInput.NavigateAxis | src/components/scene/VRControllerInput.tsx:26-39 | only this axis's stamp can change; inside its 400 ms window nothing changes; otherwise the stamp becomes `now` and the store takes the neighbour step, even when nothing is focused |
| VRControllerInput.ControllerInput.PollLeftStick | src/components/scene/VRControllerInput.tsx:45-64 | an X step when abs(x) > 0.5 and a Y step with inverted sign when abs(y) > 0.5, both possible in one poll, each behind its own stamp |
| VRControllerInput.ControllerInput.PollRightStick | src/components/scene/VRControllerInput.tsx:74-85 | a Z step when abs(y) > 0.6, deeper for y > 0, behind the Z stamp |
| VRControllerInput.ControllerInput.PollButtons | src/components/scene/VRControllerInput.tsx:95-125 | the store and Z stamp end as the button poll `ButtonsOp` gives, and the X and Y stamps stay |
| VRControllerInput.AxisOpInv | src/components/scene/VRControllerInput.tsx:31-38 | an axis step keeps the store invariant |
| VRControllerInput.GripAndHomeGoOnlyBack | src/components/scene/VRControllerInput.tsx:106-124 | grip with A/X in one poll only goes back (or does nothing inside the window), never home |
| VRControllerInput.HomeNeedsDoubleWindow | src/components/scene/VRControllerInput.tsx:118-123 | without grip, home fires exactly when A/X is pressed and 800 ms have passed since the Z stamp |
| VRControllerInput.ButtonsInv | src/components/scene/VRControllerInput.tsx:95-125 | every button poll keeps the store invariant |
| VRControllerInput.LeftButtonsMaskRight | src/components/scene/VRControllerInput.tsx:115-116 | a left controller with released A and X hides a pressed right A or X |
| VRControllerInput.OppositeDepthConventions | src/components/scene/VRControllerInput.tsx:82-83 | where both input paths act, the right stick maps to opposite depth directions here and in `useVRNavigation` |
| VRControllerInput.DrillOutMayMissParent | src/components/scene/VRControllerInput.tsx:35-38 | a three-panel example where Z -1 lands on a shallower panel that is not the parent |
| VRGaze.TagOf | src/components/scene/VRGazeInteraction.tsx:31-40 | the tag is the first truthy `panelId` up one hit's ancestor chain, or none when no ancestor has one |
| VRGaze.Gazed | src/components/scene/VRGazeInteraction.tsx:27-43 | the gazed panel is the tag of the first hit that has one; earlier hits have none |
| VRGaze.GazeInteraction.constructor | src/components/scene/VRGazeInteraction.tsx:15-16 | nothing gazed and the trigger flag down |
| VRGaze.GazeInteraction.FindGazed | src/components/scene/VRGazeInteraction.tsx:27-43 | the two nested loops compute exactly `Gazed(hits)` |
| VRGaze.GazeInteraction.UpdateHighlight | src/components/scene/VRGazeInteraction.tsx:46-77 | the remembered panel becomes the gazed one; the highlight stays when nothing changed |
| VRGaze.GazeInteraction.PollSource | src/components/scene/VRGazeInteraction.tsx:82-97 | one source's trigger step is the edge detector `SourceStep` on the store and the shared flag |
| VRGaze.GazeInteraction.PollTriggers | src/components/scene/VRGazeInteraction.tsx:80-100 | the loop over all sources equals the fold `TriggerRun` |
| VRGaze.GazeInteraction.Frame | src/components/scene/VRGazeInteraction.tsx:18-101 | without a session nothing changes; otherwise the gazed panel is remembered and the triggers are polled against it |
| VRGaze.RunUnfold | src/components/scene/VRGazeInteraction.tsx:81 | the fold over sources from index i is one source step followed by the fold from i + 1 |
| VRGaze.HeldTriggerFiresOnce | src/components/scene/VRGazeInteraction.tsx:87-94 | a held trigger on a single source focuses once and then changes nothing |
| VRGaze.ReleaseRearms | src/components/scene/VRGazeInteraction.tsx:87-97 | a released or missing trigger lowers the flag; a press with nothing gazed raises it without focusing |
| VRGaze.SharedFlagRefires | src/components/scene/VRGazeInteraction.tsx:81-97 | with one idle second controller the shared flag is lowered every frame, so a held trigger fires again |
| VRGaze.TriggerOnlyFocusesGazed | src/components/scene/VRGazeInteraction.tsx:91-94 | the trigger loop leaves the store as it was or focused on the gazed panel |
| VRGaze.RefireIsHarmless | src/components/scene/VRGazeInteraction.tsx:91-94 | once the gazed panel is focused, re-firing leaves the store unchanged |
| VRGaze.TriggerInv | src/components/scene/VRGazeInteraction.tsx:80-100 | the trigger loop keeps the store invariant |
| VRGaze.HighlightIsGazed | src/components/scene/VRGazeInteraction.tsx:46-77 | at most one panel is highlighted, and it is the last gazed one when that is non-empty |
| CameraController.RetargetOp | src/components/scene/CameraController.tsx:42-64 | the current values are untouched and the previous focus becomes the new one; entering focus saves the targets, leaving it restores them, and anything else retargets to the store's camera |
| CameraController.Controller.constructor | src/components/scene/CameraController.tsx:18-26 | every position and look-at starts at the store's camera target, nothing focused, no gesture |
| CameraController.Controller.Retarget | src/components/scene/CameraController.tsx:42-64 | the rig becomes `RetargetOp` of the old rig; the gesture state is untouched |
| CameraController.Controller.Wheel | src/components/scene/CameraController.tsx:69-73 | the target position moves by -deltaY * 0.005 along the view direction; nothing else changes |
| CameraController.Controller.PointerDown | src/components/scene/CameraController.tsx:95-103 | only button 0 arms a gesture at the press point with its pointer id |
| CameraController.Controller.PointerMove | src/components/scene/CameraController.tsx:105-133 | the gesture moves as `MoveOp`; a drag start sets the store's dragging flag; a pan moves both targets by the same offset |
| CameraController.Controller.Track | src/components/scene/CameraController.tsx:106-115 | the gesture step and its start and pan verdicts are `MoveOp` |
| CameraController.Controller.Pan | src/components/scene/CameraController.tsx:126-132 | both targets move by `-movementX * 0.005` along right plus `movementY * 0.005` along up |
| CameraController.Controller.PointerUp | src/components/scene/CameraController.tsx:135-146 | releasing an armed pointer disarms it, releases the capture, and schedules one clear exactly when it dragged |
| CameraController.Controller.ClearTimerFires | src/components/scene/CameraController.tsx:139 | a scheduled clear sets `isDragging` false and nothing else |
| CameraController.Controller.PointerCancel | src/components/scene/CameraController.tsx:148-152 | cancel disarms, forgets its pointer id and clears dragging at once |
| CameraController.Controller.Ease | src/components/scene/CameraController.tsx:170-173 | both current values move 6% of the way to their targets |
| CameraController.Controller.Frame | src/components/scene/CameraController.tsx:169-186 | easing as in `Ease`, and a running transition ends exactly when both distances are under 0.05 |
| CameraController.OverviewRoundTrip | src/components/scene/CameraController.tsx:46-56 | focusing and then unfocusing restores the overview targets whatever focus changes came between |
| CameraController.FocusedRunKeepsSaved | src/components/scene/CameraController.tsx:57-61 | while focused the saved overview is untouched and the target follows the store's last camera |
| CameraController.PanKeepsViewVector | src/components/scene/CameraController.tsx:129-132 | panning keeps the look-at minus position vector |
| CameraController.LerpContracts | src/components/scene/CameraController.tsx:172-173 | one frame scales the offset from the target by 0.94 |
| CameraController.EaseConverges | src/components/scene/CameraController.tsx:172-173 | after n frames the offset is 0.94^n of the original |
| CameraController.PowShrinks | src/components/scene/CameraController.tsx:170 | 0.94^n stays in (0, 1] and strictly decreases |
| CameraController.AtMostOneDragStart | src/components/scene/CameraController.tsx:112-115 | a gesture starts a drag at most once, and a drag stays a drag |
| CameraController.SmallMovesAreAClick | src/components/scene/CameraController.tsx:110 | moves within 5 px of the press change nothing and start no drag |
| CameraController.UnarmedIgnoresMoves | src/components/scene/CameraController.tsx:106 | an unarmed pointer ignores moves |
| MockData.IdsDistinct | src/data/mockData.ts:395-400 | the thirty listed panel ids are pairwise distinct |
| MockData.StartupIds | src/data/mockData.ts:296-352 | the template ids of the Startup row are the listed ids 6-10 |
| MockData.SmbIds | src/data/mockData.ts:296-352 | the template ids of the SMB row are the listed ids 11-15 |
| MockData.EnterpriseIds | src/data/mockData.ts:296-352 | the template ids of the Enterprise row are the listed ids 16-20 |
| MockData.LeadsDetailIds | src/data/mockData.ts:358-367 | the leads detail ids are the listed ids 21-23 |
| MockData.PipelineDetailIds | src/data/mockData.ts:369-378 | the pipeline detail ids are the listed ids 24-26 |
| MockData.RevenueDetailIds | src/data/mockData.ts:380-389 | the revenue detail ids are the listed ids 27-29 |
| MockData.Blocks | src/data/mockData.ts:395-400 | the panel list is the dashboard, then the summary, segment and detail blocks, 30 panels |
| MockData.IdsAt | src/data/mockData.ts:395-400 | panel k carries the k-th listed id |
| MockData.DefaultPanelsUnique | src/data/mockData.ts:395-400 | thirty panels with thirty distinct ids |
| MockData.ListedIds | src/data/mockData.ts:395-400 | a panel list whose ids are a list of distinct ids has exactly those ids and unique ids |
| MockData.Shape | src/data/mockData.ts:225-400 | every panel has the semantic address and parent its block gives it |
| MockData.ShapedRoot | src/data/mockData.ts:225-233 | in a shaped list panel 0 alone has no parent and alone sits on level 0, so it is the root |
| MockData.ShapedParents | src/data/mockData.ts:238-392 | in a shaped list every parent id names a panel one level up |
| MockData.ShapedGrid | src/data/mockData.ts:296-352 | in a shaped list the level-2 panels cover the 5 x 3 stage-segment grid |
| MockData.ShapedDetail | src/data/mockData.ts:357-392 | in a shaped list level-3 panels exist exactly for stages 1-3 in each segment |
| MockData.ShapedAddresses | src/data/mockData.ts:296-392 | in a shaped list no two panels below level 1 share a semantic address |
| MockData.OneRoot | src/data/mockData.ts:225-233 | exactly one panel, "dashboard", has no parent and it is the only level-0 panel, so `FindRoot` picks it |
| MockData.ParentsOneLevelUp | src/data/mockData.ts:238-392 | every parent id names an existing panel exactly one level up |
| MockData.GridCoveredOnce | src/data/mockData.ts:296-352 | level-2 panels lie in the 5 x 3 grid and every cell has one |
| MockData.DetailCoveredOnce | src/data/mockData.ts:357-392 | level-3 panels lie in stages 1-3 and every such stage-segment pair has one |
| MockData.AddressesDistinct | src/data/mockData.ts:296-392 | no two panels below level 1 share a semantic address |
| MockData.CountKindAppend | src/data/mockData.ts:406-473 | counting links of one kind distributes over concatenation |
| MockData.CountUniform | src/data/mockData.ts:406-473 | a block of one kind counts its length for that kind and zero for the others |
| MockData.LinkCounts | src/data/mockData.ts:406-473 | 61 links: 16 causal, 29 hierarchy, 16 segment |
| MockData.EdgesMatch | src/data/mockData.ts:406-473 | hierarchy links that match panels pairwise give the panels' parent edges |
| MockData.HierarchyIsParentEdges | src/data/mockData.ts:406-456 | the hierarchy links are exactly the parent-to-child edges of the panel tree, in panel order |
| MockData.EndpointsAreIds | src/data/mockData.ts:406-473 | every link joins two panels of the fixture |
| MockData.LabelsPresent | src/__tests__/grammarMockData.test.ts:87-110 | every fixture panel has a non-empty processLabel, and every panel on level 2 or deeper has the segmentLabel Startup, SMB or Enterprise |
| EmbedMockData.GroupChildren | src/data/embedMockData.ts:11-17 | the grouping loop computes `Grouped(panels)` |
| EmbedMockData.SortChildren | src/data/embedMockData.ts:18-26 | the second loop replaces every list of the map by its sorted copy and keeps the keys |
| EmbedMockData.BuildChildMap | src/data/embedMockData.ts:11-26 | both loops together compute `ChildMap(panels)` |
| EmbedMockData.ChildIdsMembers | src/data/embedMockData.ts:12-16 | an id is listed under `k` iff some panel with that id has parent `k` |
| EmbedMockData.GroupedIsChildIds | src/data/embedMockData.ts:12-16 | the first pass keys exactly the truthy parent ids that occur, each with its children in list order |
| EmbedMockData.ChildMapKeys | src/data/embedMockData.ts:13-16 | the parents in the map are the truthy parent ids that occur |
| EmbedMockData.ChildMapOrder | src/data/embedMockData.ts:20-25 | each list is a permutation of the parent's children, sorted by the parent's key, and stable |
| EmbedMockData.ChildMapEntries | src/data/embedMockData.ts:11-26 | every id listed under `k` is a panel whose parent is `k` |
| EmbedMockData.ChildIdsOnce | src/data/embedMockData.ts:12-16 | with distinct ids each child is listed once under its parent |
| EmbedMockData.ChildListedOnce | src/data/embedMockData.ts:11-26 | with distinct ids every child panel appears exactly once in its parent's sorted list |
| EmbedMockData.ExtractLabels | src/data/embedMockData.ts:29-40 | the labels are the metric labels, products or stages for kpi, bar and funnel charts, none otherwise |
| EmbedMockData.BuildDrillMap | src/data/embedMockData.ts:43-57 | the label loop computes `DrillMap(panel, childMap)` |
| EmbedMockData.DrillEntriesMeaning | src/data/embedMockData.ts:51-55 | a label is a key iff it has a child at its position, and it maps to the child at its last such position |
| EmbedMockData.DrillMapMeaning | src/data/embedMockData.ts:43-57 | a drill map exists iff the panel has children and labels; every target is one of its children |
| EmbedMockData.DistinctLabelsAlign | src/data/embedMockData.ts:51-55 | with distinct labels, label i drills to child i |
| EmbedMockData.EmbedPanels | src/data/embedMockData.ts:60-71 | one embed panel per panel, in order |
| EmbedMockData.EmbedPanelsShape | src/data/embedMockData.ts:60-71 | each panel keeps its fields except chart type "embed" and data: the reports URL ending in its id, provider "custom", a drill map iff it has children and labels |
| EmbedMockData.DrillTargetsAreChildren | src/data/embedMockData.ts:60-71 | every drill target of an embed panel is a child of that panel |
| EmbedPanel.ProviderLabel | src/components/charts/EmbedPanel.tsx:36 | the label if present (even empty), else the provider's name, else "Embed" |
| EmbedPanel.SandboxValue | src/components/charts/EmbedPanel.tsx:37 | the sandbox if present, else the default |
| EmbedPanel.DrillTarget | src/components/charts/EmbedPanel.tsx:49-51 | a target exists iff the category is truthy and the drill map has a truthy entry for it |
| EmbedPanel.HandleMessage | src/components/charts/EmbedPanel.tsx:41-67 | foreign or non-drill messages do nothing; a drill-map hit goes only to `onDrillTo`; otherwise a present index or a truthy category goes to `onItemClick` |
| EmbedPanel.UnmountedAcceptsAnySource | src/components/charts/EmbedPanel.tsx:43 | while the iframe is unmounted a message from any window is acted on; once mounted a foreign one is not |
| EmbedPanel.EmbedPanelDrillsToChild | src/components/charts/EmbedPanel.tsx:36-52 | every embed panel shows "Report", uses the default sandbox, and any drill lands on one of its own children |
| ChartRegistry.Lookup | src/registry/chartRegistry.ts:9-11 | the renderer registered for the type, or nothing for an unregistered type |
| ChartRegistry.Registry.constructor | src/registry/chartRegistry.ts:3 | the registry starts empty: every type is unregistered |
| ChartRegistry.Registry.Register | src/registry/chartRegistry.ts:5-7 | the type now yields the new renderer, replacing an earlier one; every other type yields what it did |
| ChartRegistry.Registry.Get | src/registry/chartRegistry.ts:9-11 | a renderer comes back iff the type is registered, and it is the registered one |
| ChartRegistry.ReRegisterOverwrites | src/__tests__/chartRegistry.test.ts:20-25 | two `registerChart` calls for one type, then `getChartRenderer`, yield the second renderer; other types keep their entries |
| RoomLayout.Slice | src/layouts/roomLayout.ts:16-18 | `slice` with bounds clamped to the length, so a short list gives short or empty walls |
| RoomLayout.PerWall | src/layouts/roomLayout.ts:15 | the integer ceiling of count / 3 |
| RoomLayout.Layout | src/layouts/roomLayout.ts:6-58 | one position per panel, panel k at `PlaceAt(count, k)`; none for an empty list |
| RoomLayout.PushWall | src/layouts/roomLayout.ts:25-55 | one wall's loop appends its evenly spaced positions and keeps the earlier ones |
| RoomLayout.WallCounts | src/layouts/roomLayout.ts:15-18 | the left wall takes ceil(n/3), front and right at most as many, and together all n |
| RoomLayout.Placement | src/layouts/roomLayout.ts:25-55 | left-wall panels at x = -width/2 turned pi/2, front-wall panels at z = -depth/2 unturned, right-wall panels at x = width/2 turned -pi/2, all at y = 0 with scale 1 |
| RoomLayout.SlotInside | src/layouts/roomLayout.ts:26-27 | the slots of a wall lie strictly inside it |
| RoomLayout.SlotIncreasing | src/layouts/roomLayout.ts:26-27 | the slots of a wall strictly increase |
| RoomLayout.WallOrder | src/layouts/roomLayout.ts:25-55 | panels on one wall keep list order along it |
| RoomLayout.InsideRoom | src/layouts/roomLayout.ts:25-55 | every panel hangs strictly inside its wall's extent |
| RoomLayout.DefaultRoomInside | src/layouts/roomLayout.ts:8-9 | with the default 12 x 8 room, front-wall panels lie within x = ±6 and side-wall panels within z = ±4 |
| Viewport.UiScale | src/hooks/useViewport.ts:42 | the scale is clamped to [0.65, 1] |
| Viewport.Info | src/hooks/useViewport.ts:36-43 | mobile iff width < 640, tablet iff 640 <= width <= 1024, desktop iff width > 1024, scale in [0.65, 1] |
| Viewport.ExactlyOneClass | src/hooks/useViewport.ts:39-41 | every width falls in exactly one class |
| Viewport.UiScalePieces | src/hooks/useViewport.ts:42 | 0.65 up to 780 px, width/1200 between 780 and 1200 px, 1 from 1200 px |
| Viewport.UiScaleMonotone | src/hooks/useViewport.ts:42 | a wider window never gets a smaller scale |
| AxisLabels.ColumnTop | src/components/xr/VRAxisLabels.tsx:52-55 | the top is attained by a panel of the column and no panel of the column is higher; none for an empty column |
| AxisLabels.RowLeft | src/components/xr/VRAxisLabels.tsx:66-69 | the leftmost x is attained by a panel of the row and no panel of the row is further left |
| AxisLabels.ComputeLabels | src/components/xr/VRAxisLabels.tsx:38-79 | the labels computed over the grammar layout are `Labels(panels)`, none for no panels |
| AxisLabels.LabelsLoop | src/components/xr/VRAxisLabels.tsx:46-76 | the loop computes `LabelsUpTo(panels, positions, n)` for aligned positions |
| AxisLabels.VisitColumn | src/components/xr/VRAxisLabels.tsx:50-61 | a column label is appended exactly when the panel opens its column, and the seen set grows to the first i + 1 panels' steps |
| AxisLabels.VisitRow | src/components/xr/VRAxisLabels.tsx:64-75 | a row label is appended exactly when the panel opens its row, and the seen set grows accordingly |
| AxisLabels.LabelsStep | src/components/xr/VRAxisLabels.tsx:46-76 | the labels of i + 1 panels are those of i followed by panel i's contribution |
| AxisLabels.SeenStepsMeaning | src/components/xr/VRAxisLabels.tsx:43-51 | a step is seen iff an earlier panel with a processLabel has it |
| AxisLabels.SeenSegmentsMeaning | src/components/xr/VRAxisLabels.tsx:64-65 | a segment is seen iff an earlier panel with a segmentLabel has it |
| AxisLabels.ColumnOpening | src/components/xr/VRAxisLabels.tsx:50 | a panel opens its column iff it has a processLabel and no earlier labelled panel shares its step |
| AxisLabels.RowOpening | src/components/xr/VRAxisLabels.tsx:64 | a panel opens its row iff it has a segmentLabel and a segment and no earlier such panel shares its segment |
| AxisLabels.LayoutColumnsApart | src/components/xr/VRAxisLabels.tsx:41 | the grammar layout puts different steps at different x |
| AxisLabels.LayoutRowsApart | src/components/xr/VRAxisLabels.tsx:41 | the grammar layout puts different segments at different y |
| AxisLabels.XLabelsUpTo | src/components/xr/VRAxisLabels.tsx:46-76 | after any prefix of the loop the x-labels sit at distinct x of labelled panels |
| AxisLabels.YLabelsUpTo | src/components/xr/VRAxisLabels.tsx:46-76 | after any prefix of the loop the y-labels sit at distinct y of labelled panels |
| AxisLabels.OneLabelPerColumn | src/components/xr/VRAxisLabels.tsx:50-61 | no two x-labels share an x |
| AxisLabels.OneLabelPerRow | src/components/xr/VRAxisLabels.tsx:64-75 | no two y-labels share a y |
| AxisLabels.ColumnOpener | src/components/xr/VRAxisLabels.tsx:50 | every labelled panel's column is opened at or before it |
| AxisLabels.RowOpener | src/components/xr/VRAxisLabels.tsx:64 | every labelled panel's row is opened at or before it |
| AxisLabels.EveryColumnLabelled | src/components/xr/VRAxisLabels.tsx:50-61 | every column with a processLabel gets the label of its first labelled panel |
| AxisLabels.DefaultColumnsLabelled | src/components/xr/VRAxisLabels.tsx:50-61 | in the default scene every column gets the x-label of its first panel |
| AxisLabels.EveryRowLabelled | src/components/xr/VRAxisLabels.tsx:64-75 | every row with a segmentLabel and a segment gets the label of its first such panel |
| WordWrap.Split | src/xr/fallbackTexture.ts:48 | splitting on single spaces yields at least one piece |
| WordWrap.SplitJoin | src/xr/fallbackTexture.ts:48 | splitting then joining with spaces gives the title back |
| WordWrap.SplitNoSpace | src/xr/fallbackTexture.ts:48 | no piece of a split holds a space |
| WordWrap.FirstWord | src/xr/fallbackTexture.ts:52-53 | the first word is a space-free prefix followed by a space or the end |
| WordWrap.Wrap | src/xr/fallbackTexture.ts:47-60 | the wrap loop computes `Wrapped(title, measure)` |
| WordWrap.LinesNonEmpty | src/xr/fallbackTexture.ts:51-60 | every pushed line is non-empty |
| WordWrap.MultiWordLinesFit | src/xr/fallbackTexture.ts:52-58 | a line of two or more words measures at most 472; only a single word may be wider |
| WordWrap.RunJoins | src/xr/fallbackTexture.ts:51-59 | with no empty words the lines joined with spaces are the words joined with spaces |
| WordWrap.LinesRejoinTitle | src/xr/fallbackTexture.ts:47-60 | without empty words (no double, leading or trailing spaces) the lines rejoin to the title |
| WordWrap.LinesClosedForCause | src/xr/fallbackTexture.ts:53-55 | a line is closed only when the next word would not fit after it |
| WordWrap.Placement | src/xr/fallbackTexture.ts:62-73 | line i at y = 80 + 44 i, then a truthy subtitle 16 below the next slot, all centred at 256 with width 472 |
| WordWrap.Draw | src/xr/fallbackTexture.ts:64-73 | the drawing loop issues exactly `Placement(lines, subtitle)` |
| WordWrap.PlacementDescends | src/xr/fallbackTexture.ts:62-73 | drawn texts go strictly down the texture |
| BigEndian.BE32 | scripts/generate-icons.mjs:52 | four bytes for a 32-bit value |
| BigEndian.ByteValue | scripts/generate-icons.mjs:52 | a value below 256 survives the trip through a byte |
| BigEndian.Digits | scripts/generate-icons.mjs:52 | a 32-bit value is its four base-256 digits |
| BigEndian.BE32RoundTrip | scripts/generate-icons.mjs:51-56 | reading back the four big-endian bytes gives the value |
| PngCrc.MakeCrcTable | scripts/generate-icons.mjs:61-66 | the table loop fills entry n with eight reflected-polynomial bit steps of n |
| PngCrc.IterCommutes | scripts/generate-icons.mjs:64 | a step that commutes with xor through a helper step commutes with it over j iterations |
| PngCrc.ShiftPasses | scripts/generate-icons.mjs:64 | xoring an even word in before a bit step is xoring half of it in after |
| PngCrc.IterSplit | scripts/generate-icons.mjs:64-69 | eight bit steps of a low byte plus a high part only shift the high part down by 8 |
| PngCrc.TableStep | scripts/generate-icons.mjs:69 | one table step equals eight bit steps of the register on the byte |
| PngCrc.Lookup | scripts/generate-icons.mjs:69 | a table lookup does one byte's eight bit steps |
| PngCrc.Crc32 | scripts/generate-icons.mjs:67-71 | the table-driven loop equals the bitwise reference CRC (init and final xor 0xFFFFFFFF) |
| PngCrc.CrcEmpty | scripts/generate-icons.mjs:67-71 | the CRC of no bytes is 0 |
| PngCrc.CrcOfIend | scripts/generate-icons.mjs:67-71 | the CRC of the bytes "IEND" is 0xAE426082 |
| PngCrc.RegisterStep | scripts/generate-icons.mjs:69 | one more byte through the register is one byte step |
| PngRaster.Pixel | scripts/generate-icons.mjs:26-41 | each pixel is four bytes ending in alpha 255 |
| PngRaster.Pixels | scripts/generate-icons.mjs:24-42 | n pixels take 4n bytes |
| PngRaster.Row | scripts/generate-icons.mjs:14-23 | a scanline is a filter byte and 4 bytes per pixel |
| PngRaster.SpliceTwice | scripts/generate-icons.mjs:32-40 | writing t then u just after it writes t + u |
| PngRaster.WritePixel | scripts/generate-icons.mjs:25-41 | the pixel's four bytes replace those at its offset, nothing else changes |
| PngRaster.WriteRow | scripts/generate-icons.mjs:22-42 | the scanline replaces the bytes at the row offset, nothing else changes |
| PngRaster.OffsetFits | scripts/generate-icons.mjs:22 | row y ends by where a later row starts |
| PngRaster.RawBuffer | scripts/generate-icons.mjs:14-43 | the new buffer holds the size rows of the raster, in order |
| PngRaster.RowAt | scripts/generate-icons.mjs:22 | scanline y sits at offset y * rowBytes |
| PngRaster.PixelAt | scripts/generate-icons.mjs:25 | pixel x sits at offset 4x of the row's pixels |
| PngRaster.RowLayout | scripts/generate-icons.mjs:23-25 | inside a scanline: the filter byte 0, then pixel x at 1 + 4x with alpha 255 |
| PngRaster.RawLayout | scripts/generate-icons.mjs:14-43 | the raster is size * (1 + 4 size) bytes, byte y * rowBytes is filter 0, pixel (x, y) at y * rowBytes + 1 + 4x with alpha 255 |
| PngIcon.WriteUInt32BE | scripts/generate-icons.mjs:51-56 | the four bytes of the value replace those at the offset, nothing else changes |
| PngIcon.NewWord | scripts/generate-icons.mjs:51-56 | a new four-byte buffer holding the value big-endian |
| PngIcon.Ascii | scripts/generate-icons.mjs:53 | one byte per character |
| PngIcon.Chunk | scripts/generate-icons.mjs:50-58 | the chunk is length, type, data and the CRC of type and data |
| PngIcon.ChunkLayout | scripts/generate-icons.mjs:57 | the four fields of a chunk sit at 0, 4, 8 and 8 + length |
| PngIcon.ChunkParses | scripts/generate-icons.mjs:50-58 | a chunk is 12 bytes longer than its data, and a reader gets type, data and the rest back with a matching CRC |
| PngIcon.ChunkWords | scripts/generate-icons.mjs:50-58 | the length and CRC words of a chunk read back as written |
| PngIcon.IendType | scripts/generate-icons.mjs:87 | the type IEND is the bytes 73 69 78 68 |
| PngIcon.IendBytes | scripts/generate-icons.mjs:87 | the IEND chunk is 12 bytes: length 0, the type IEND, CRC 0xAE426082 |
| PngIcon.IendCrc | scripts/generate-icons.mjs:87 | the CRC of the IEND chunk is 0xAE426082 |
| PngIcon.ChunkCrcField | scripts/generate-icons.mjs:54-57 | a chunk's last word reads back as the CRC of its type and data |
| PngIcon.Ihdr | scripts/generate-icons.mjs:74-81 | the header buffer is the two size words followed by 8 6 0 0 0 |
| PngIcon.IhdrFields | scripts/generate-icons.mjs:74-81 | 13 bytes reading back as a size x size image, 8-bit RGBA, no interlace |
| PngIcon.CreatePng | scripts/generate-icons.mjs:8-89 | the file is the signature and the IHDR, IDAT and IEND chunks of the compressed raster |
| PngIcon.FileParses | scripts/generate-icons.mjs:83-88 | 57 bytes plus the data; a reader gets the signature, IHDR with the header, IDAT with the data, IEND empty and nothing after |
| PngIcon.FileEndsWithIend | scripts/generate-icons.mjs:83-88 | the file ends with length 0, the type IEND and the CRC 0xAE426082 |

## Left out

- `overviewCameraFromPanels` (src/store/dashboardStore.ts:30-60) uses `Math.tan` and floating-point min/max. `SetPanels` takes the overview camera as a parameter, and the fixed default is a constant.
- `setVRMode` and `setVRComfortSettings` (src/store/dashboardStore.ts:223-227) only write VR display settings, which no navigation rule reads.
- Three.js vector maths: the view direction for zoom, the right and up vectors for pan, Euler rotation and the raycaster. The unit vectors and the hit lists are parameters.
- Floating-point rounding of the camera lerp, of the pan and zoom steps, and of `Math.hypot`. The model uses exact real arithmetic, and the 5 px test becomes dx² + dy² ≥ 25.
- Continuous locomotion and head-relative movement in `useVRNavigation` (src/hooks/useVRNavigation.ts:95-125). Only the reset of the offset and the yaw's snap count are kept; the yaw is an integer count of π/6 turns.
- The timers: `setTimeout` in the pointer-up handler becomes a pending-clear counter with an explicit `ClearTimerFires` method. `setInterval`, `requestAnimationFrame` and the resize listener of `useViewport` are not modelled.
- Keyboard events: `event.key` strings become a `Key` datatype. `preventDefault` and the editable-target test become one boolean input.
- The panel highlighting in `VRGazeInteraction` writes material opacities in the scene graph. The model keeps only which panel is highlighted.
- The chart data payloads and their seeded series generators in src/data/mockData.ts are opaque data.
- The diamond colouring of the icon (scripts/generate-icons.mjs lines 27-34) uses floating-point distances and `Math.round`, so it is a parameter `colour`. Only the pixel and row layout is modelled.
- `deflateSync` is a parameter `compress`, and the IDAT payload is opaque. The file writes at the end of the icon script are I/O and not modelled.
- PngIcon.CreatePng: `writeUInt32BE` throws a `RangeError` for a value of 2^32 or more. The model makes that a precondition of `WriteUInt32BE`, `Chunk` and `CreatePng` instead of modelling the exception.
- PngCrc.Crc32: JavaScript's `crc32` returns a signed 32-bit number that the caller turns unsigned with `>>> 0`. The model returns the `bv32` bit pattern, which is the same word.
- `measureText` is the parameter `measure` of the word wrap. Canvas drawing calls other than the positions of the text lines are not modelled.
- The `Array.prototype.sort` comparator is modelled as a stable insertion sort by an integer key, since ES2019 requires `sort` to be stable.
- JavaScript prototype lookups on the provider table (`PROVIDER_LABELS['toString']`) are not modelled. The table is a map of its six own entries.
- EmbedPanel.DrillTarget: `config.drillMap[category]` (src/components/charts/EmbedPanel.tsx:49-50) is a plain-object lookup. The model's drill map is a `map<string, string>` of its own entries only. In the source, a category naming an inherited property, such as `"constructor"`, finds a truthy function and calls `onDrillTo` with it. The model finds no target and falls through to the index path.
- EmbedMockData.BuildDrillMap: `map[label] = …` on `{}` (src/data/embedMockData.ts:50-55) is also a plain-object write. A label `"__proto__"` would set the object's prototype instead of adding a key, and `Object.keys` would not count it. The model adds every label as an ordinary key. No label of the mock dataset names an `Object.prototype` property.
- Not part of this model, because they are rendering, I/O or duplicates of patterns modelled here:
  - src/components/scene/VRLocomotion.tsx, vr-test/src/App.tsx and the VR texture capture pipeline;
  - the chart renderers, the arc and grid layouts, and the UI chrome components.
