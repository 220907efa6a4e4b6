/** The controller poller: every 100 ms it reads the left stick (X and Y
    steps), the right stick (Z steps) and the buttons (grip goes back, A/X
    go home). Each axis has its own 400 ms gate; the grip and A/X buttons
    share the Z gate, A/X with a doubled window. A controller's buttons are
    a list of pressed flags, missing buttons beyond its end; `now` is the
    clock reading of the poll. */
module VRControllerInput {
  import opened Panels
  import opened DashboardStore
  import opened KeyboardNavigation
  import opened Cooldown
  import VRNavigation

  const NAV_COOLDOWN := 400
  const LEFT_THRESHOLD := 0.5
  const RIGHT_THRESHOLD := 0.6
  const GRIP_BUTTON := 1
  const A_BUTTON := 4
  const X_BUTTON := 5

  /** A gated step: navigate to the neighbour of the focused panel along
      `axis`, if both exist. Unlike the headset hook, Z -1 also resolves a
      neighbour rather than going back. */
  function AxisOp(s: StoreState, axis: Axis, direction: Direction): StoreState {
    match FindById(s.panels, s.focusedPanelId)
    case None => s
    case Some(current) => Step(s, current, axis, direction)
  }

  /** Stick deflection to step direction: X follows the sign, the left
      stick's Y is inverted, the right stick's Y is not. */
  function LeftXDirection(x: real): (d: Direction)
    ensures d == 1 <==> x > 0.0
  {
    if x > 0.0 then 1 else -1
  }

  function LeftYDirection(y: real): (d: Direction)
    ensures d == 1 <==> !(y > 0.0)
  {
    if y > 0.0 then -1 else 1
  }

  function RightYDirection(y: real): (d: Direction)
    ensures d == 1 <==> y > 0.0
  {
    if y > 0.0 then 1 else -1
  }

  /** `leftButtons[k] || rightButtons[k]`: a button object is truthy when it
      exists, so the left controller's button k masks the right one's
      whenever the left controller has it. */
  function Slot(left: seq<bool>, right: seq<bool>, k: nat): (r: Option<bool>)
    ensures r.None? <==> |left| <= k && |right| <= k
    ensures |left| > k ==> r == Some(left[k])
  {
    if |left| > k then Some(left[k]) else if |right| > k then Some(right[k]) else None
  }

  function SlotPressed(left: seq<bool>, right: seq<bool>, k: nat): bool {
    var b := Slot(left, right, k);
    b.Some? && b.value
  }

  /** Grip reads each controller's button 1 separately. */
  predicate GripPressed(left: seq<bool>, right: seq<bool>) {
    (|left| > GRIP_BUTTON && left[GRIP_BUTTON]) || (|right| > GRIP_BUTTON && right[GRIP_BUTTON])
  }

  predicate HomePressed(left: seq<bool>, right: seq<bool>) {
    SlotPressed(left, right, A_BUTTON) || SlotPressed(left, right, X_BUTTON)
  }

  /** One button poll on the store and the Z stamp. A grip press that is
      blocked by the gate ends the poll early, before A/X are read. */
  function ButtonsOp(s: StoreState, lastZ: int, now: int, grip: bool, home: bool): (StoreState, int) {
    if grip && !Open(now, lastZ, NAV_COOLDOWN) then (s, lastZ)
    else
      var (s1, z1) := if grip then (BackOp(s), now) else (s, lastZ);
      if home && Open(now, z1, 2 * NAV_COOLDOWN) then (HomeOp(s1), now) else (s1, z1)
  }

  class ControllerInput {
    var lastX: int
    var lastY: int
    var lastZ: int

    constructor ()
      ensures lastX == 0 && lastY == 0 && lastZ == 0
    {
      lastX, lastY, lastZ := 0, 0, 0;
    }

    function Last(axis: Axis): int
      reads this
    {
      match axis
      case X => lastX
      case Y => lastY
      case Z => lastZ
    }

    /** A step along `axis` behind that axis's own gate, stamped even when
        nothing is focused or there is no neighbour. */
    method NavigateAxis(store: Store, now: int, axis: Axis, direction: Direction)
      requires store.Valid()
      modifies this, store
      ensures store.Valid()
      ensures axis != X ==> lastX == old(lastX)
      ensures axis != Y ==> lastY == old(lastY)
      ensures axis != Z ==> lastZ == old(lastZ)
      ensures !Open(now, old(Last(axis)), NAV_COOLDOWN) ==>
        Last(axis) == old(Last(axis)) && store.State() == old(store.State())
      ensures Open(now, old(Last(axis)), NAV_COOLDOWN) ==>
        Last(axis) == now && store.State() == AxisOp(old(store.State()), axis, direction)
    {
      if now - Last(axis) < NAV_COOLDOWN {
        return;
      }
      match axis {
        case X => lastX := now;
        case Y => lastY := now;
        case Z => lastZ := now;
      }
      var current := FindById(store.panels, store.focusedPanelId);
      if current.None? {
        return;
      }
      var neighbor := FindNeighbor(store.panels, current.value, axis, direction);
      if neighbor.Some? {
        store.NavigateTo(neighbor.value.id, axis);
      }
    }

    /** Left stick: an X step and a Y step, both possible in one poll. */
    method PollLeftStick(store: Store, now: int, x: real, y: real)
      requires store.Valid()
      modifies this, store
      ensures store.Valid()
      ensures lastZ == old(lastZ)
      ensures var fx := VRNavigation.AbsR(x) > LEFT_THRESHOLD && Open(now, old(lastX), NAV_COOLDOWN);
        var fy := VRNavigation.AbsR(y) > LEFT_THRESHOLD && Open(now, old(lastY), NAV_COOLDOWN);
        var s1 := if fx then AxisOp(old(store.State()), X, LeftXDirection(x)) else old(store.State());
        && lastX == (if fx then now else old(lastX))
        && lastY == (if fy then now else old(lastY))
        && store.State() == (if fy then AxisOp(s1, Y, LeftYDirection(y)) else s1)
    {
      if VRNavigation.AbsR(x) > LEFT_THRESHOLD {
        NavigateAxis(store, now, X, LeftXDirection(x));
      }
      if VRNavigation.AbsR(y) > LEFT_THRESHOLD {
        NavigateAxis(store, now, Y, LeftYDirection(y));
      }
    }

    /** Right stick: a Z step, pushing up (positive y) going deeper. */
    method PollRightStick(store: Store, now: int, y: real)
      requires store.Valid()
      modifies this, store
      ensures store.Valid()
      ensures lastX == old(lastX) && lastY == old(lastY)
      ensures var fz := VRNavigation.AbsR(y) > RIGHT_THRESHOLD && Open(now, old(lastZ), NAV_COOLDOWN);
        && lastZ == (if fz then now else old(lastZ))
        && store.State() == (if fz then AxisOp(old(store.State()), Z, RightYDirection(y)) else old(store.State()))
    {
      if VRNavigation.AbsR(y) > RIGHT_THRESHOLD {
        NavigateAxis(store, now, Z, RightYDirection(y));
      }
    }

    /** Buttons: grip goes back behind the Z gate, then A/X go home behind
        a doubled Z window. */
    method PollButtons(store: Store, now: int, left: seq<bool>, right: seq<bool>)
      requires store.Valid()
      modifies this, store
      ensures store.Valid()
      ensures lastX == old(lastX) && lastY == old(lastY)
      ensures (store.State(), lastZ) ==
        ButtonsOp(old(store.State()), old(lastZ), now, GripPressed(left, right), HomePressed(left, right))
    {
      if GripPressed(left, right) {
        if now - lastZ < NAV_COOLDOWN {
          return;
        }
        lastZ := now;
        store.NavigateBack();
      }
      var aButton := Slot(left, right, A_BUTTON);
      var xButton := Slot(left, right, X_BUTTON);
      if (aButton.Some? && aButton.value) || (xButton.Some? && xButton.value) {
        if now - lastZ < 2 * NAV_COOLDOWN {
          return;
        }
        lastZ := now;
        store.NavigateHome();
      }
    }
  }

  // ---------------------------------------------------------------------
  // Properties

  lemma AxisOpInv(s: StoreState, axis: Axis, direction: Direction)
    requires Inv(s)
    ensures Inv(AxisOp(s, axis, direction))
  {
    var current := FindById(s.panels, s.focusedPanelId);
    if current.Some? { StepInv(s, current.value, axis, direction); }
  }

  /** Grip and A/X in the same poll never reach home: the grip either ends
      the poll at its gate or stamps the Z gate just before A/X read it. */
  lemma GripAndHomeGoOnlyBack(s: StoreState, lastZ: int, now: int)
    ensures var (t, z) := ButtonsOp(s, lastZ, now, true, true);
      && (Open(now, lastZ, NAV_COOLDOWN) ==> t == BackOp(s) && z == now)
      && (!Open(now, lastZ, NAV_COOLDOWN) ==> t == s && z == lastZ)
  {
  }

  /** Home needs 800 ms since the last Z action; without a grip that is the
      only condition besides the press. */
  lemma HomeNeedsDoubleWindow(s: StoreState, lastZ: int, now: int, home: bool)
    ensures var (t, z) := ButtonsOp(s, lastZ, now, false, home);
      && (home && now - lastZ >= 800 ==> t == HomeOp(s) && z == now)
      && (!(home && now - lastZ >= 800) ==> t == s && z == lastZ)
  {
  }

  /** Every button poll keeps the store invariant. */
  lemma ButtonsInv(s: StoreState, lastZ: int, now: int, grip: bool, home: bool)
    requires Inv(s)
    ensures Inv(ButtonsOp(s, lastZ, now, grip, home).0)
  {
    BackInv(s);
    HomeInv(s);
    HomeInv(BackOp(s));
  }

  /** A left controller that has A and X buttons hides the right
      controller's: with both released, a pressed right A/X goes unseen. */
  lemma LeftButtonsMaskRight(left: seq<bool>, right: seq<bool>)
    requires |left| > X_BUTTON && !left[A_BUTTON] && !left[X_BUTTON]
    ensures !HomePressed(left, right)
  {
  }

  /** The two input paths map the right stick's vertical axis to opposite
      depth directions wherever both act. */
  lemma OppositeDepthConventions(x: real, y: real)
    requires VRNavigation.AbsR(y) > RIGHT_THRESHOLD && VRNavigation.AbsR(y) > VRNavigation.AbsR(x)
    ensures VRNavigation.DrillIntent(x, y).Some?
    ensures RightYDirection(y) as int == -(VRNavigation.DrillIntent(x, y).value as int)
  {
  }

  /** Drilling out here resolves a depth neighbour, which need not be the
      parent: a shallower panel in the current row comes first. */
  lemma DrillOutMayMissParent(q: Panel, p: Panel, c: Panel)
    requires q.id == "q" && q.semantic == Semantic(0, None, 0)
    requires p.id == "p" && p.semantic == Semantic(0, Some(1), 0)
    requires c.id == "c" && c.semantic == Semantic(0, None, 1) && c.parentId == Some("p")
    ensures FindNeighbor([q, p, c], c, Z, -1) == Some(q)
    ensures Some(q.id) != c.parentId
  {
    var panels := [q, p, c];
    var z := (x: Panel) => ZCandidate(x, c, 0);
    assert panels[1..] == [p, c] && [p, c][1..] == [c] && [c][1..] == [];
    assert Filter([c], z) == [];
    assert Filter([p, c], z) == [p];
    assert ZCandidates(panels, c, 0) == [q, p];
    assert FindSegment([q, p], 0) == Some(q);
  }
}
