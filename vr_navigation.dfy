/** Discrete navigation from the headset's right thumbstick and squeeze
    buttons: a shared 400 ms gate in front of the axis steps, a 300 ms snap
    turn, the drill-intent mapping of the stick's vertical axis, and the
    locomotion reset on every teleport. `now` is the clock reading the
    handler would take; the yaw is an integer count of π/6 turns. */
module VRNavigation {
  import opened Panels
  import opened DashboardStore
  import opened KeyboardNavigation
  import opened Cooldown

  const NAV_COOLDOWN_MS := 400
  const SNAP_COOLDOWN := 300
  const NAV_DEAD_ZONE := 0.5
  const SNAP_DEAD_ZONE := 0.6

  /** The shared locomotion state the world is shifted and turned by. */
  class Locomotion {
    var offset: Vec3
    var yawSteps: int

    constructor ()
      ensures offset == Vec3(0.0, 0.0, 0.0) && yawSteps == 0
    {
      offset := Vec3(0.0, 0.0, 0.0);
      yawSteps := 0;
    }

    method Reset()
      modifies this
      ensures offset == Vec3(0.0, 0.0, 0.0) && yawSteps == 0
    {
      offset := Vec3(0.0, 0.0, 0.0);
      yawSteps := 0;
    }
  }

  function AbsR(x: real): real { if x < 0.0 then -x else x }

  /** What an axis step that passed the gate does: the new store state and
      whether the locomotion is reset. */
  function AxisEffect(s: StoreState, axis: Axis, direction: Direction): (StoreState, bool) {
    match FindById(s.panels, s.focusedPanelId)
    case None => (s, false)
    case Some(current) =>
      if axis == Z && direction == -1 then (BackOp(s), false)
      else
        match FindNeighbor(s.panels, current, axis, direction)
        case None => (s, false)
        case Some(n) => (NavigateToOp(s, n.id, axis), true)
  }

  /** The snap gate is strict: `now - last > 300`, i.e. a 301 ms gap. */
  predicate SnapFires(x: real, now: int, lastSnap: int) {
    AbsR(x) > SNAP_DEAD_ZONE && Open(now, lastSnap, SNAP_COOLDOWN + 1)
  }

  /** Pushing right turns by -π/6, pushing left by +π/6. */
  function SnapDelta(x: real): (d: int)
    ensures d == 1 || d == -1
    ensures d == -1 <==> x > 0.0
  {
    if x > 0.0 then -1 else 1
  }

  /** A vertical push beyond the dead zone that dominates the horizontal
      one drills: forward (negative y) deeper, backward out. */
  function DrillIntent(x: real, y: real): (r: Option<Direction>)
    ensures r.Some? <==> AbsR(y) > NAV_DEAD_ZONE && AbsR(y) > AbsR(x)
    ensures r.Some? ==> (r.value == 1 <==> y < 0.0)
  {
    if AbsR(y) > NAV_DEAD_ZONE && AbsR(y) > AbsR(x) then Some(if y < 0.0 then 1 else -1) else None
  }

  class VRNavigator {
    var lastNavTime: int
    var lastSnapTime: int

    constructor ()
      ensures lastNavTime == 0 && lastSnapTime == 0
    {
      lastNavTime := 0;
      lastSnapTime := 0;
    }

    /** One discrete step along `axis`, behind the shared 400 ms gate. The
        gate is stamped before the focus check, so a blocked or fruitless
        step still consumes the window. */
    method NavigateAxis(store: Store, loco: Locomotion, now: int, axis: Axis, direction: Direction)
      requires store.Valid()
      requires store != loco as object
      modifies this, store, loco
      ensures store.Valid()
      ensures lastSnapTime == old(lastSnapTime)
      ensures !Open(now, old(lastNavTime), NAV_COOLDOWN_MS) ==>
        lastNavTime == old(lastNavTime) && store.State() == old(store.State())
        && loco.offset == old(loco.offset) && loco.yawSteps == old(loco.yawSteps)
      ensures Open(now, old(lastNavTime), NAV_COOLDOWN_MS) ==>
        var (t, reset) := AxisEffect(old(store.State()), axis, direction);
        && lastNavTime == now && store.State() == t
        && (reset ==> loco.offset == Vec3(0.0, 0.0, 0.0) && loco.yawSteps == 0)
        && (!reset ==> loco.offset == old(loco.offset) && loco.yawSteps == old(loco.yawSteps))
    {
      if now - lastNavTime < NAV_COOLDOWN_MS {
        return;
      }
      lastNavTime := now;
      var current := FindById(store.panels, store.focusedPanelId);
      if current.None? {
        return;
      }
      if axis == Z && direction == -1 {
        store.NavigateBack();
        return;
      }
      var neighbor := FindNeighbor(store.panels, current.value, axis, direction);
      if neighbor.Some? {
        store.NavigateTo(neighbor.value.id, axis);
        loco.Reset();
      }
    }

    /** One frame of the right thumbstick: a snap turn, then a drill step. */
    method RightStickFrame(store: Store, loco: Locomotion, now: int, x: real, y: real)
      requires store.Valid()
      requires store != loco as object
      modifies this, store, loco
      ensures store.Valid()
      ensures lastSnapTime == if SnapFires(x, now, old(lastSnapTime)) then now else old(lastSnapTime)
      ensures DrillIntent(x, y).None? ==>
        && lastNavTime == old(lastNavTime) && store.State() == old(store.State())
        && loco.offset == old(loco.offset)
        && loco.yawSteps == old(loco.yawSteps) + (if SnapFires(x, now, old(lastSnapTime)) then SnapDelta(x) else 0)
      ensures DrillIntent(x, y).Some? && !Open(now, old(lastNavTime), NAV_COOLDOWN_MS) ==>
        && lastNavTime == old(lastNavTime) && store.State() == old(store.State())
        && loco.offset == old(loco.offset)
        && loco.yawSteps == old(loco.yawSteps) + (if SnapFires(x, now, old(lastSnapTime)) then SnapDelta(x) else 0)
      ensures DrillIntent(x, y).Some? && Open(now, old(lastNavTime), NAV_COOLDOWN_MS) ==>
        var (t, reset) := AxisEffect(old(store.State()), Z, DrillIntent(x, y).value);
        && lastNavTime == now && store.State() == t
        && (reset ==> loco.offset == Vec3(0.0, 0.0, 0.0) && loco.yawSteps == 0)
        && (!reset ==>
              && loco.offset == old(loco.offset)
              && loco.yawSteps == old(loco.yawSteps) + (if SnapFires(x, now, old(lastSnapTime)) then SnapDelta(x) else 0))
    {
      if AbsR(x) > SNAP_DEAD_ZONE && now - lastSnapTime > SNAP_COOLDOWN {
        lastSnapTime := now;
        loco.yawSteps := loco.yawSteps + SnapDelta(x);
      }
      var intent := DrillIntent(x, y);
      if intent.Some? {
        NavigateAxis(store, loco, now, Z, intent.value);
      }
    }

    /** A squeeze press on either controller goes back, ungated. */
    method Squeeze(store: Store, loco: Locomotion, pressed: bool)
      requires store.Valid()
      requires store != loco as object
      modifies store, loco
      ensures store.Valid()
      ensures pressed ==>
        store.State() == BackOp(old(store.State())) && loco.offset == Vec3(0.0, 0.0, 0.0) && loco.yawSteps == 0
      ensures !pressed ==>
        store.State() == old(store.State()) && loco.offset == old(loco.offset) && loco.yawSteps == old(loco.yawSteps)
    {
      if pressed {
        store.NavigateBack();
        loco.Reset();
      }
    }
  }

  // ---------------------------------------------------------------------
  // Properties

  /** A step that passed the gate: nothing without a focused panel; the
      drill-out intent goes back without consulting the neighbours; any
      other step moves to the neighbour along its axis and resets the
      locomotion exactly when there is one. */
  lemma AxisEffectCases(s: StoreState, axis: Axis, direction: Direction)
    requires Inv(s)
    ensures var (t, reset) := AxisEffect(s, axis, direction);
      var current := FindById(s.panels, s.focusedPanelId);
      && Inv(t)
      && (current.None? ==> t == s && !reset)
      && (current.Some? && axis == Z && direction == -1 ==> t == BackOp(s) && !reset)
      && (current.Some? && !(axis == Z && direction == -1) ==>
            && (reset <==> FindNeighbor(s.panels, current.value, axis, direction).Some?)
            && t == Step(s, current.value, axis, direction))
  {
    var current := FindById(s.panels, s.focusedPanelId);
    if current.Some? {
      BackInv(s);
      StepInv(s, current.value, axis, direction);
    }
  }

  /** Drilling out from a panel with a parent focuses that parent (the
      depth neighbour is never consulted). */
  lemma DrillOutGoesToParent(s: StoreState)
    requires Inv(s) && Truthy(s.focusedPanelId)
    requires FindById(s.panels, s.focusedPanelId).Some? && HasParent(FindById(s.panels, s.focusedPanelId).value)
    ensures AxisEffect(s, Z, -1).0.focusedPanelId == FindById(s.panels, s.focusedPanelId).value.parentId
  {
    BackToParent(s);
  }

  /** A stick inside both dead zones neither turns nor drills, and a purely
      sideways push never drills. */
  lemma DeadZone(x: real, y: real, now: int, lastSnap: int)
    ensures AbsR(x) <= SNAP_DEAD_ZONE ==> !SnapFires(x, now, lastSnap)
    ensures AbsR(y) <= NAV_DEAD_ZONE ==> DrillIntent(x, y).None?
    ensures AbsR(y) <= AbsR(x) ==> DrillIntent(x, y).None?
  {
  }

  /** A stick held over many frames turns once per window: two snaps are
      more than 300 ms apart. */
  lemma SnapsAreSpaced(lastSnap: int, times: seq<int>, i: nat, j: nat)
    requires i < j < |times|
    requires Replay(lastSnap, times, SNAP_COOLDOWN + 1)[i] && Replay(lastSnap, times, SNAP_COOLDOWN + 1)[j]
    ensures times[j] - times[i] > SNAP_COOLDOWN
  {
    PassesAreSpaced(lastSnap, times, SNAP_COOLDOWN + 1, i, j);
  }

  /** A drill held over many frames steps once per 400 ms window. */
  lemma StepsAreSpaced(lastNav: int, times: seq<int>, i: nat, j: nat)
    requires i < j < |times|
    requires Replay(lastNav, times, NAV_COOLDOWN_MS)[i] && Replay(lastNav, times, NAV_COOLDOWN_MS)[j]
    ensures times[j] - times[i] >= NAV_COOLDOWN_MS
  {
    PassesAreSpaced(lastNav, times, NAV_COOLDOWN_MS, i, j);
  }
}
