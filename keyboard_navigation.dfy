/** Neighbour resolution along the three navigation axes, and the keyboard
    bindings that move the store's focus along them. */
module KeyboardNavigation {
  import opened Panels
  import opened StableSort
  import opened DashboardStore

  function StepOf(p: Panel): int { p.semantic.processStep }

  function SegOf(p: Panel): int { SegOrZero(p.semantic.segment) }

  /** Same row (segment, treating null as 0) and depth, another panel. */
  predicate XCandidate(p: Panel, current: Panel) {
    SegOf(p) == SegOf(current) && p.semantic.detailLevel == current.semantic.detailLevel && p.id != current.id
  }

  /** Same column and depth, another panel, with a real (non-null) segment. */
  predicate YCandidate(p: Panel, current: Panel) {
    p.semantic.processStep == current.semantic.processStep
    && p.semantic.detailLevel == current.semantic.detailLevel
    && p.id != current.id
    && p.semantic.segment.Some?
  }

  /** Same column, at the given depth. */
  predicate ZCandidate(p: Panel, current: Panel, level: int) {
    p.semantic.processStep == current.semantic.processStep && p.semantic.detailLevel == level
  }

  function XTest(current: Panel): Panel -> bool {
    p => XCandidate(p, current)
  }

  function YTest(current: Panel): Panel -> bool {
    p => YCandidate(p, current)
  }

  function XCandidates(panels: seq<Panel>, current: Panel): seq<Panel> {
    Filter(panels, XTest(current))
  }

  function YCandidates(panels: seq<Panel>, current: Panel): seq<Panel> {
    Filter(panels, YTest(current))
  }

  function ZCandidates(panels: seq<Panel>, current: Panel, level: int): seq<Panel> {
    Filter(panels, p => ZCandidate(p, current, level))
  }

  /** `candidates.find((p) => (p.semantic.segment ?? 0) === seg)` */
  function FindSegment(candidates: seq<Panel>, seg: int): (r: Option<Panel>)
    ensures r.Some? ==>
      exists i :: 0 <= i < |candidates| && candidates[i] == r.value
        && SegOf(r.value) == seg && forall j :: 0 <= j < i ==> SegOf(candidates[j]) != seg
    ensures r.None? ==> forall j :: 0 <= j < |candidates| ==> SegOf(candidates[j]) != seg
  {
    if |candidates| == 0 then None
    else if SegOf(candidates[0]) == seg then Some(candidates[0])
    else
      var r := FindSegment(candidates[1..], seg);
      assert forall j :: 1 <= j < |candidates| ==> candidates[j] == candidates[1..][j - 1];
      r
  }

  /** The nearest neighbour of `current` along `axis` in `direction`, or None. */
  function FindNeighbor(panels: seq<Panel>, current: Panel, axis: Axis, direction: Direction): Option<Panel> {
    match axis
    case X => NeighborX(panels, current, direction)
    case Y => NeighborY(panels, current, direction)
    case Z => NeighborZ(panels, current, direction)
  }

  /** Sort a fresh filtered copy stably by processStep and take the first
      step beyond the current one, reversing the sorted copy when looking
      backwards. */
  function NeighborX(panels: seq<Panel>, current: Panel, direction: Direction): Option<Panel> {
    var sorted := SortBy(XCandidates(panels, current), StepOf);
    if direction == 1 then FirstAbove(sorted, StepOf, StepOf(current))
    else FirstBelow(Reverse(sorted), StepOf, StepOf(current))
  }

  /** As along X, keyed by segment (null as 0) over the Y candidates. */
  function NeighborY(panels: seq<Panel>, current: Panel, direction: Direction): Option<Panel> {
    var sorted := SortBy(YCandidates(panels, current), SegOf);
    if direction == 1 then FirstAbove(sorted, SegOf, SegOf(current))
    else FirstBelow(Reverse(sorted), SegOf, SegOf(current))
  }

  /** One level deeper or shallower in the same column, never above level 0,
      preferring the current row. */
  function NeighborZ(panels: seq<Panel>, current: Panel, direction: Direction): Option<Panel> {
    var targetLevel := current.semantic.detailLevel + direction;
    if targetLevel < 0 then None
    else PreferRow(ZCandidates(panels, current, targetLevel), SegOf(current))
  }

  /** The first candidate in the given row, else the first candidate. */
  function PreferRow(candidates: seq<Panel>, seg: int): Option<Panel> {
    if |candidates| == 0 then None
    else match FindSegment(candidates, seg)
      case Some(p) => Some(p)
      case None => Some(candidates[0])
  }

  // ---------------------------------------------------------------------
  // The neighbour rules

  /** Each axis-aligned search is the reference nearest-key choice over its
      candidates: the sorted copy and its reverse play no further part. */
  lemma RightIsNearest(panels: seq<Panel>, current: Panel)
    ensures FindNeighbor(panels, current, X, 1) == NearestAbove(XCandidates(panels, current), StepOf, StepOf(current))
  {
    SortedFindIsNearestAbove(XCandidates(panels, current), StepOf, StepOf(current));
  }

  lemma LeftIsNearest(panels: seq<Panel>, current: Panel)
    ensures FindNeighbor(panels, current, X, -1) == NearestBelow(XCandidates(panels, current), StepOf, StepOf(current))
  {
    SortedReverseFindIsNearestBelow(XCandidates(panels, current), StepOf, StepOf(current));
  }

  lemma UpIsNearest(panels: seq<Panel>, current: Panel)
    ensures FindNeighbor(panels, current, Y, 1) == NearestAbove(YCandidates(panels, current), SegOf, SegOf(current))
  {
    SortedFindIsNearestAbove(YCandidates(panels, current), SegOf, SegOf(current));
  }

  lemma DownIsNearest(panels: seq<Panel>, current: Panel)
    ensures FindNeighbor(panels, current, Y, -1) == NearestBelow(YCandidates(panels, current), SegOf, SegOf(current))
  {
    SortedReverseFindIsNearestBelow(YCandidates(panels, current), SegOf, SegOf(current));
  }

  /** The nearest key above `k` among the panels passing `cand`, the first
      such panel in list order among equal keys. */
  lemma AboveAmongCandidates(panels: seq<Panel>, cand: Panel -> bool, key: Panel -> int, k: int)
    ensures var r := NearestAbove(Filter(panels, cand), key, k);
      && (r.Some? <==> exists q :: q in panels && cand(q) && key(q) > k)
      && (r.Some? ==>
            && r.value in panels && cand(r.value) && key(r.value) > k
            && (forall q :: q in panels && cand(q) && key(q) > k ==> key(r.value) <= key(q))
            && exists n :: 0 <= n < |panels| && panels[n] == r.value
                 && forall m :: 0 <= m < n && cand(panels[m]) ==> key(panels[m]) != key(r.value))
  {
    var c := Filter(panels, cand);
    NearestAboveMeaning(c, key, k);
    var r := NearestAbove(c, key, k);
    if r.Some? {
      var i :| 0 <= i < |c| && c[i] == r.value && forall j :: 0 <= j < i ==> key(c[j]) != key(r.value);
      FirstInFilter(panels, cand, key, i);
    } else {
      InCandidates(c);
    }
  }

  /** The nearest key below `k` among the panels passing `cand`, the last
      such panel in list order among equal keys. */
  lemma BelowAmongCandidates(panels: seq<Panel>, cand: Panel -> bool, key: Panel -> int, k: int)
    ensures var r := NearestBelow(Filter(panels, cand), key, k);
      && (r.Some? <==> exists q :: q in panels && cand(q) && key(q) < k)
      && (r.Some? ==>
            && r.value in panels && cand(r.value) && key(r.value) < k
            && (forall q :: q in panels && cand(q) && key(q) < k ==> key(q) <= key(r.value))
            && exists n :: 0 <= n < |panels| && panels[n] == r.value
                 && forall m :: n < m < |panels| && cand(panels[m]) ==> key(panels[m]) != key(r.value))
  {
    var c := Filter(panels, cand);
    NearestBelowMeaning(c, key, k);
    var r := NearestBelow(c, key, k);
    if r.Some? {
      var i :| 0 <= i < |c| && c[i] == r.value && forall j :: i < j < |c| ==> key(c[j]) != key(r.value);
      LastInFilter(panels, cand, key, i);
    } else {
      InCandidates(c);
    }
  }

  /** Along X forwards: found exactly when some candidate lies at a larger
      processStep; what is found has the smallest such step, and no earlier
      candidate in list order shares that step. */
  lemma FindNeighborRight(panels: seq<Panel>, current: Panel)
    ensures var r := FindNeighbor(panels, current, X, 1);
      && (r.Some? <==> exists q :: q in panels && XCandidate(q, current) && StepOf(q) > StepOf(current))
      && (r.Some? ==>
            && r.value in panels && XCandidate(r.value, current) && StepOf(r.value) > StepOf(current)
            && (forall q :: q in panels && XCandidate(q, current) && StepOf(q) > StepOf(current) ==> StepOf(r.value) <= StepOf(q))
            && exists n :: 0 <= n < |panels| && panels[n] == r.value
                 && forall m :: 0 <= m < n && XCandidate(panels[m], current) ==> StepOf(panels[m]) != StepOf(r.value))
  {
    RightIsNearest(panels, current);
    AboveAmongCandidates(panels, XTest(current), StepOf, StepOf(current));
    assert forall p :: XTest(current)(p) == XCandidate(p, current);
  }

  /** Along X backwards: the largest processStep below the current one; among
      equal steps the last candidate in list order wins. */
  lemma FindNeighborLeft(panels: seq<Panel>, current: Panel)
    ensures var r := FindNeighbor(panels, current, X, -1);
      && (r.Some? <==> exists q :: q in panels && XCandidate(q, current) && StepOf(q) < StepOf(current))
      && (r.Some? ==>
            && r.value in panels && XCandidate(r.value, current) && StepOf(r.value) < StepOf(current)
            && (forall q :: q in panels && XCandidate(q, current) && StepOf(q) < StepOf(current) ==> StepOf(q) <= StepOf(r.value))
            && exists n :: 0 <= n < |panels| && panels[n] == r.value
                 && forall m :: n < m < |panels| && XCandidate(panels[m], current) ==> StepOf(panels[m]) != StepOf(r.value))
  {
    LeftIsNearest(panels, current);
    BelowAmongCandidates(panels, XTest(current), StepOf, StepOf(current));
    assert forall p :: XTest(current)(p) == XCandidate(p, current);
  }

  /** Along Y upwards: never a null segment; the smallest segment above the
      current one (null counting as 0) in the same column and depth. */
  lemma FindNeighborUp(panels: seq<Panel>, current: Panel)
    ensures var r := FindNeighbor(panels, current, Y, 1);
      && (r.Some? <==> exists q :: q in panels && YCandidate(q, current) && SegOf(q) > SegOf(current))
      && (r.Some? ==>
            && r.value in panels && YCandidate(r.value, current) && r.value.semantic.segment.Some?
            && SegOf(r.value) > SegOf(current)
            && (forall q :: q in panels && YCandidate(q, current) && SegOf(q) > SegOf(current) ==> SegOf(r.value) <= SegOf(q))
            && exists n :: 0 <= n < |panels| && panels[n] == r.value
                 && forall m :: 0 <= m < n && YCandidate(panels[m], current) ==> SegOf(panels[m]) != SegOf(r.value))
  {
    UpIsNearest(panels, current);
    AboveAmongCandidates(panels, YTest(current), SegOf, SegOf(current));
    assert forall p :: YTest(current)(p) == YCandidate(p, current);
  }

  /** Along Y downwards: never a null segment; the largest segment below the
      current one, the last in list order among equals. */
  lemma FindNeighborDown(panels: seq<Panel>, current: Panel)
    ensures var r := FindNeighbor(panels, current, Y, -1);
      && (r.Some? <==> exists q :: q in panels && YCandidate(q, current) && SegOf(q) < SegOf(current))
      && (r.Some? ==>
            && r.value in panels && YCandidate(r.value, current) && r.value.semantic.segment.Some?
            && SegOf(r.value) < SegOf(current)
            && (forall q :: q in panels && YCandidate(q, current) && SegOf(q) < SegOf(current) ==> SegOf(q) <= SegOf(r.value))
            && exists n :: 0 <= n < |panels| && panels[n] == r.value
                 && forall m :: n < m < |panels| && YCandidate(panels[m], current) ==> SegOf(panels[m]) != SegOf(r.value))
  {
    DownIsNearest(panels, current);
    BelowAmongCandidates(panels, YTest(current), SegOf, SegOf(current));
    assert forall p :: YTest(current)(p) == YCandidate(p, current);
  }

  /** Membership in a candidate list is membership of the list's elements. */
  lemma InCandidates(c: seq<Panel>)
    ensures forall q :: q in c <==> exists j :: 0 <= j < |c| && c[j] == q
  {
  }

  lemma DepthIsPreferRow(panels: seq<Panel>, current: Panel, direction: Direction)
    ensures var level := current.semantic.detailLevel + direction;
      FindNeighbor(panels, current, Z, direction)
        == if level < 0 then None else PreferRow(ZCandidates(panels, current, level), SegOf(current))
  {
  }

  /** The row preference finds something exactly when there are candidates;
      it is the first candidate in the row if there is one, else the first
      candidate. */
  lemma PreferRowMeaning(c: seq<Panel>, seg: int)
    ensures PreferRow(c, seg).Some? <==> |c| > 0
    ensures PreferRow(c, seg).Some? ==> PreferRow(c, seg).value in c
    ensures (exists j :: 0 <= j < |c| && SegOf(c[j]) == seg) ==>
      exists i :: 0 <= i < |c| && c[i] == PreferRow(c, seg).value && SegOf(c[i]) == seg
        && forall j :: 0 <= j < i ==> SegOf(c[j]) != seg
    ensures |c| > 0 && (forall j :: 0 <= j < |c| ==> SegOf(c[j]) != seg) ==> PreferRow(c, seg) == Some(c[0])
  {
    if |c| > 0 {
      var f := FindSegment(c, seg);
      if f.Some? {
        var i :| 0 <= i < |c| && c[i] == f.value;
      }
    }
  }

  /** Along Z nothing is found above level 0, nor when the column has no
      panel at the target level; otherwise something is. */
  lemma FindNeighborDepthExists(panels: seq<Panel>, current: Panel, direction: Direction)
    ensures var level := current.semantic.detailLevel + direction;
      var r := FindNeighbor(panels, current, Z, direction);
      && (level < 0 ==> r.None?)
      && (level >= 0 ==> (r.Some? <==> exists q :: q in panels && ZCandidate(q, current, level)))
      && (r.Some? ==> r.value in panels && ZCandidate(r.value, current, level))
  {
    var level := current.semantic.detailLevel + direction;
    DepthIsPreferRow(panels, current, direction);
    if level >= 0 {
      var c := ZCandidates(panels, current, level);
      PreferRowMeaning(c, SegOf(current));
      if |c| > 0 { assert c[0] in c; }
    }
  }

  /** Along Z the first panel at the target level in the current row
      (segment, null as 0) is preferred, else the first panel there at all;
      the hierarchy (`parentId`) plays no part. */
  lemma FindNeighborDepthChoice(panels: seq<Panel>, current: Panel, direction: Direction)
    requires FindNeighbor(panels, current, Z, direction).Some?
    ensures var r := FindNeighbor(panels, current, Z, direction).value;
      var c := ZCandidates(panels, current, current.semantic.detailLevel + direction);
      && |c| > 0
      && ((exists j :: 0 <= j < |c| && SegOf(c[j]) == SegOf(current)) ==>
            exists i :: 0 <= i < |c| && c[i] == r && SegOf(r) == SegOf(current)
              && forall j :: 0 <= j < i ==> SegOf(c[j]) != SegOf(current))
      && ((forall j :: 0 <= j < |c| ==> SegOf(c[j]) != SegOf(current)) ==> r == c[0])
  {
    DepthIsPreferRow(panels, current, direction);
    PreferRowMeaning(ZCandidates(panels, current, current.semantic.detailLevel + direction), SegOf(current));
  }

  /** The neighbour is never the current panel, and lies in the list. */
  lemma NeighborNeverSelf(panels: seq<Panel>, current: Panel, axis: Axis, direction: Direction)
    requires FindNeighbor(panels, current, axis, direction).Some?
    ensures FindNeighbor(panels, current, axis, direction).value in panels
    ensures FindNeighbor(panels, current, axis, direction).value != current
    ensures axis != Z ==> FindNeighbor(panels, current, axis, direction).value.id != current.id
  {
    match axis
    case X =>
      if direction == 1 { FindNeighborRight(panels, current); } else { FindNeighborLeft(panels, current); }
    case Y =>
      if direction == 1 { FindNeighborUp(panels, current); } else { FindNeighborDown(panels, current); }
    case Z =>
      FindNeighborDepthExists(panels, current, direction);
  }

  /** Between two panels the store can look up, a change of depth reads as
      Z, a change of row alone as Y and a change of column alone as X. */
  lemma DetectAxisCases(panels: seq<Panel>, from: Panel, to: Panel)
    requires from.id != ""
    requires FindById(panels, Some(from.id)) == Some(from) && FindById(panels, Some(to.id)) == Some(to)
    ensures to.semantic.detailLevel != from.semantic.detailLevel ==> DetectAxis(panels, Some(from.id), to.id) == Z
    ensures to.semantic.detailLevel == from.semantic.detailLevel && StepOf(to) == StepOf(from) && SegOf(to) != SegOf(from)
      ==> DetectAxis(panels, Some(from.id), to.id) == Y
    ensures to.semantic.detailLevel == from.semantic.detailLevel && SegOf(to) == SegOf(from) && StepOf(to) != StepOf(from)
      ==> DetectAxis(panels, Some(from.id), to.id) == X
  {
    assert Truthy(Some(from.id));
  }

  /** What the neighbour search guarantees about how the neighbour differs
      from the current panel, axis by axis. */
  lemma NeighborDiffers(panels: seq<Panel>, current: Panel, axis: Axis, direction: Direction)
    requires FindNeighbor(panels, current, axis, direction).Some?
    ensures var n := FindNeighbor(panels, current, axis, direction).value;
      && n in panels
      && (axis == X ==> n.semantic.detailLevel == current.semantic.detailLevel && SegOf(n) == SegOf(current) && StepOf(n) != StepOf(current))
      && (axis == Y ==> n.semantic.detailLevel == current.semantic.detailLevel && StepOf(n) == StepOf(current) && SegOf(n) != SegOf(current))
      && (axis == Z ==> n.semantic.detailLevel != current.semantic.detailLevel)
  {
    match axis
    case X =>
      if direction == 1 { FindNeighborRight(panels, current); } else { FindNeighborLeft(panels, current); }
    case Y =>
      if direction == 1 { FindNeighborUp(panels, current); } else { FindNeighborDown(panels, current); }
    case Z =>
      FindNeighborDepthExists(panels, current, direction);
  }

  /** With unique ids, moving to a neighbour and asking the store which axis
      the move ran along gives back the axis it was found on. */
  lemma NeighborAxisDetected(panels: seq<Panel>, i: nat, axis: Axis, direction: Direction)
    requires UniqueIds(panels) && i < |panels| && panels[i].id != ""
    requires FindNeighbor(panels, panels[i], axis, direction).Some?
    ensures DetectAxis(panels, Some(panels[i].id), FindNeighbor(panels, panels[i], axis, direction).value.id) == axis
  {
    var n := FindNeighbor(panels, panels[i], axis, direction).value;
    NeighborDiffers(panels, panels[i], axis, direction);
    var k :| 0 <= k < |panels| && panels[k] == n;
    UniqueFind(panels, i);
    UniqueFind(panels, k);
    DetectAxisCases(panels, panels[i], n);
  }

  /** With unique ids, looking a panel up by its own id finds it. */
  lemma UniqueFind(panels: seq<Panel>, i: nat)
    requires UniqueIds(panels) && i < |panels|
    ensures FindById(panels, Some(panels[i].id)) == Some(panels[i])
  {
    var k := FindIndexById(panels, Some(panels[i].id));
    assert k.Some? && k.value <= i;
  }

  // ---------------------------------------------------------------------
  // Key bindings

  /** The keys the handler distinguishes (`e.key`); every other key is `OtherKey`. */
  datatype Key = ArrowRight | ArrowLeft | ArrowUp | ArrowDown | Period | Greater | Comma | Less | Backspace | Home | OtherKey

  /** Navigate to the neighbour along `axis` if there is one. */
  function Step(s: StoreState, current: Panel, axis: Axis, direction: Direction): StoreState {
    match FindNeighbor(s.panels, current, axis, direction)
    case None => s
    case Some(n) => NavigateToOp(s, n.id, axis)
  }

  /** `panels.find((p) => visiblePanelIds.includes(p.id))` */
  function FindVisible(panels: seq<Panel>, visible: seq<string>): (r: Option<Panel>)
    ensures r.Some? ==>
      exists i :: 0 <= i < |panels| && panels[i] == r.value && r.value.id in visible
        && forall j :: 0 <= j < i ==> panels[j].id !in visible
    ensures r.None? ==> forall j :: 0 <= j < |panels| ==> panels[j].id !in visible
  {
    if |panels| == 0 then None
    else if panels[0].id in visible then Some(panels[0])
    else
      var r := FindVisible(panels[1..], visible);
      assert forall j :: 1 <= j < |panels| ==> panels[j] == panels[1..][j - 1];
      r
  }

  /** The axis and direction a movement key resolves a neighbour along;
      None for the other keys. */
  function MoveOf(key: Key): Option<(Axis, Direction)> {
    match key
    case ArrowRight => Some((X, 1))
    case ArrowLeft => Some((X, -1))
    case ArrowUp => Some((Y, 1))
    case ArrowDown => Some((Y, -1))
    case Period => Some((Z, 1))
    case Greater => Some((Z, 1))
    case _ => None
  }

  /** Focus the first visible panel, if there is one. */
  function FocusFirstVisible(s: StoreState): StoreState {
    match FindVisible(s.panels, s.visiblePanelIds)
    case None => s
    case Some(p) => FocusOp(s, p.id)
  }

  /** What a keypress asks of the store. */
  datatype Command = NoOp | FocusFirst | Move(current: Panel, axis: Axis, direction: Direction) | Back | GoHome

  /** The handler's decision for a key: ignored in text fields; ArrowRight
      with nothing focused focuses the first visible panel; the movement keys
      and the drill-out keys need a focused panel; Backspace and Home act
      always. */
  function KeyCommand(s: StoreState, key: Key, targetIsTextField: bool): Command {
    if targetIsTextField then NoOp
    else
      var current := FindById(s.panels, s.focusedPanelId);
      if key == ArrowRight && current.None? then FocusFirst
      else if MoveOf(key).Some? then
        (if current.None? then NoOp else Move(current.value, MoveOf(key).value.0, MoveOf(key).value.1))
      else if key == Comma || key == Less then
        (if current.None? then NoOp else Back)
      else if key == Backspace then Back
      else if key == Home then GoHome
      else NoOp
  }

  /** The store action a command performs. */
  function Apply(s: StoreState, cmd: Command): StoreState {
    match cmd
    case NoOp => s
    case FocusFirst => FocusFirstVisible(s)
    case Move(current, axis, direction) => Step(s, current, axis, direction)
    case Back => BackOp(s)
    case GoHome => HomeOp(s)
  }

  /** The key handler's effect on the store, as a function of its state. */
  function KeyOp(s: StoreState, key: Key, targetIsTextField: bool): StoreState {
    Apply(s, KeyCommand(s, key, targetIsTextField))
  }

  /** The dispatch table: text fields and unbound keys do nothing; ',' and
      '<' are one binding, going back only from a focused panel; Backspace
      goes back and Home goes home in every state. */
  lemma KeyDispatch(s: StoreState, key: Key)
    ensures KeyCommand(s, key, true) == NoOp
    ensures KeyCommand(s, OtherKey, false) == NoOp
    ensures KeyCommand(s, Comma, false) == KeyCommand(s, Less, false)
    ensures FindById(s.panels, s.focusedPanelId).None? ==> KeyCommand(s, Comma, false) == NoOp
    ensures FindById(s.panels, s.focusedPanelId).Some? ==> KeyCommand(s, Comma, false) == Back
    ensures KeyCommand(s, Backspace, false) == Back
    ensures KeyCommand(s, Home, false) == GoHome
  {
  }

  /** A movement key on a focused panel steps along its axis from that
      panel; with no focused panel only ArrowRight acts. */
  lemma MoveKeysFollowNeighbors(s: StoreState, key: Key, axis: Axis, direction: Direction)
    requires MoveOf(key) == Some((axis, direction))
    ensures FindById(s.panels, s.focusedPanelId).None? ==>
      KeyCommand(s, key, false) == if key == ArrowRight then FocusFirst else NoOp
    ensures FindById(s.panels, s.focusedPanelId).Some? ==>
      KeyCommand(s, key, false) == Move(FindById(s.panels, s.focusedPanelId).value, axis, direction)
  {
  }

  /** ArrowRight with nothing focused focuses the first panel of the list
      (every panel is visible). */
  lemma ArrowRightWithoutFocus(s: StoreState)
    requires Inv(s) && |s.panels| > 0
    requires FindById(s.panels, s.focusedPanelId).None?
    ensures KeyCommand(s, ArrowRight, false) == FocusFirst
    ensures FocusFirstVisible(s).focusedPanelId == Some(s.panels[0].id)
  {
    assert s.panels[0].id == Ids(s.panels)[0];
  }

  lemma StepInv(s: StoreState, current: Panel, axis: Axis, direction: Direction)
    requires Inv(s)
    ensures Inv(Step(s, current, axis, direction))
  {
    var n := FindNeighbor(s.panels, current, axis, direction);
    if n.Some? { NavigateToInv(s, n.value.id, axis); }
  }

  /** Every key keeps the store invariant. */
  lemma KeyInv(s: StoreState, key: Key, targetIsTextField: bool)
    requires Inv(s)
    ensures Inv(KeyOp(s, key, targetIsTextField))
  {
    var cmd := KeyCommand(s, key, targetIsTextField);
    match cmd
    case NoOp =>
    case FocusFirst =>
      var firstVisible := FindVisible(s.panels, s.visiblePanelIds);
      if firstVisible.Some? { FocusInv(s, firstVisible.value.id); }
    case Move(current, axis, direction) => StepInv(s, current, axis, direction);
    case Back => BackInv(s);
    case GoHome => HomeInv(s);
  }

  /** Resolve the neighbour along `axis` and navigate to it, if there is one. */
  method MoveAlong(store: Store, current: Panel, axis: Axis, direction: Direction)
    requires store.Valid()
    modifies store
    ensures store.Valid()
    ensures store.State() == Step(old(store.State()), current, axis, direction)
  {
    var neighbor := FindNeighbor(store.panels, current, axis, direction);
    if neighbor.Some? {
      store.NavigateTo(neighbor.value.id, axis);
    }
  }

  /** Carry out a command on the store. */
  method Perform(store: Store, cmd: Command)
    requires store.Valid()
    modifies store
    ensures store.Valid()
    ensures store.State() == Apply(old(store.State()), cmd)
  {
    match cmd
    case NoOp =>
    case FocusFirst =>
      var firstVisible := FindVisible(store.panels, store.visiblePanelIds);
      if firstVisible.Some? {
        store.FocusPanel(firstVisible.value.id);
      }
    case Move(current, axis, direction) => MoveAlong(store, current, axis, direction);
    case Back => store.NavigateBack();
    case GoHome => store.NavigateHome();
  }

  /** The keydown handler: decide what the key asks for in the current
      state, then do it. */
  method HandleKeyDown(store: Store, key: Key, targetIsTextField: bool)
    requires store.Valid()
    modifies store
    ensures store.Valid()
    ensures store.State() == KeyOp(old(store.State()), key, targetIsTextField)
  {
    var cmd := NoOp;
    if !targetIsTextField {
      var current := FindById(store.panels, store.focusedPanelId);
      var move := MoveOf(key);
      if key == ArrowRight && current.None? {
        cmd := FocusFirst;
      } else if move.Some? {
        if current.Some? {
          cmd := Move(current.value, move.value.0, move.value.1);
        }
      } else if key == Comma || key == Less {
        if current.Some? {
          cmd := Back;
        }
      } else if key == Backspace {
        cmd := Back;
      } else if key == Home {
        cmd := GoHome;
      }
    }
    assert cmd == KeyCommand(store.State(), key, targetIsTextField);
    Perform(store, cmd);
  }
}
