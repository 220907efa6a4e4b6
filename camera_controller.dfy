/** The desktop camera controller: the targets it retargets when the focus
    changes (saving and restoring the overview view), the mouse gesture
    that tells a click from a drag and pans, the wheel zoom, and the
    per-frame easing that ends a transition. Direction vectors the source
    derives from the camera with cross products and normalisation (the view
    direction, the screen's right and up) are inputs, and distances are
    compared squared (`hypot(dx, dy) < 5` as `dx² + dy² < 25`). */
module CameraController {
  import opened Panels
  import opened DashboardStore

  const DRAG_THRESHOLD := 5.0
  const PAN_SPEED := 0.005
  const WHEEL_SPEED := 0.005
  const LERP_FACTOR := 0.06
  const ARRIVED := 0.05

  /** The camera refs: targets, eased current values, the saved overview
      view and the focus seen on the previous change. */
  datatype Rig = Rig(
    targetPos: Vec3, targetLookAt: Vec3,
    currentPos: Vec3, currentLookAt: Vec3,
    savedPos: Vec3, savedLookAt: Vec3,
    prevFocused: Option<string>)

  /** Retargeting on a change of camera target or focus: entering a focus
      from the overview saves the current targets, leaving it restores
      them, anything else retargets to the store's camera. */
  function RetargetOp(r: Rig, cam: CameraTarget, focused: Option<string>): (t: Rig)
    ensures t.currentPos == r.currentPos && t.currentLookAt == r.currentLookAt
    ensures t.prevFocused == focused
  {
    var wasFocused := r.prevFocused.Some?;
    var isFocused := focused.Some?;
    if !wasFocused && isFocused then
      r.(savedPos := r.targetPos, savedLookAt := r.targetLookAt,
         targetPos := cam.position, targetLookAt := cam.lookAt, prevFocused := focused)
    else if wasFocused && !isFocused then
      r.(targetPos := r.savedPos, targetLookAt := r.savedLookAt, prevFocused := focused)
    else
      r.(targetPos := cam.position, targetLookAt := cam.lookAt, prevFocused := focused)
  }

  /** A run of store changes seen by the retargeting effect. */
  function RetargetAll(r: Rig, changes: seq<(CameraTarget, Option<string>)>): Rig
    decreases |changes|
  {
    if |changes| == 0 then r
    else RetargetAll(RetargetOp(r, changes[0].0, changes[0].1), changes[1..])
  }

  /** `v.lerp(target, a)` */
  function Lerp(v: Vec3, target: Vec3, a: real): Vec3 {
    v.Plus(target.Minus(v).Times(a))
  }

  /** `distanceTo(b) < d`, squared. */
  predicate Within(a: Vec3, b: Vec3, d: real) {
    a.Minus(b).NormSquared() < d * d
  }

  function Pow(c: real, n: nat): real {
    if n == 0 then 1.0 else c * Pow(c, n - 1)
  }

  /** `n` frames of easing towards a fixed target. */
  function Ease(v: Vec3, target: Vec3, n: nat): Vec3
    decreases n
  {
    if n == 0 then v else Ease(Lerp(v, target, LERP_FACTOR), target, n - 1)
  }

  /** The mouse gesture's closure variables. */
  datatype Gesture = Gesture(isDown: bool, didDrag: bool, startX: real, startY: real, pointerId: int)

  const IDLE := Gesture(false, false, 0.0, 0.0, -1)

  predicate BeyondThreshold(dx: real, dy: real) {
    dx * dx + dy * dy >= DRAG_THRESHOLD * DRAG_THRESHOLD
  }

  /** A pointer move: the new gesture, whether it starts the drag (and sets
      the store's dragging flag) and whether it pans. */
  function MoveOp(g: Gesture, x: real, y: real): (Gesture, bool, bool) {
    if !g.isDown then (g, false, false)
    else if !g.didDrag && !BeyondThreshold(x - g.startX, y - g.startY) then (g, false, false)
    else if !g.didDrag then (g.(didDrag := true), true, true)
    else (g, false, true)
  }

  /** How many moves of a run start a drag. */
  function DragStarts(g: Gesture, moves: seq<(real, real)>): nat
    decreases |moves|
  {
    if |moves| == 0 then 0
    else
      var (g1, starts, _) := MoveOp(g, moves[0].0, moves[0].1);
      (if starts then 1 else 0) + DragStarts(g1, moves[1..])
  }

  /** The gesture after a run of moves. */
  function AfterMoves(g: Gesture, moves: seq<(real, real)>): Gesture
    decreases |moves|
  {
    if |moves| == 0 then g else AfterMoves(MoveOp(g, moves[0].0, moves[0].1).0, moves[1..])
  }

  /** The drag's translation: `movementX` against the screen's right axis,
      `movementY` along its up axis, both scaled by the pan speed. */
  function PanOffset(right: Vec3, up: Vec3, movementX: real, movementY: real): Vec3 {
    right.Times(-movementX * PAN_SPEED).Plus(up.Times(movementY * PAN_SPEED))
  }

  class Controller {
    var targetPos: Vec3
    var targetLookAt: Vec3
    var currentPos: Vec3
    var currentLookAt: Vec3
    var savedPos: Vec3
    var savedLookAt: Vec3
    var prevFocused: Option<string>

    var isDown: bool
    var didDrag: bool
    var startX: real
    var startY: real
    var pointerId: int
    /** Scheduled `setDragging(false)` calls not yet run. */
    var pendingClears: nat

    function RigState(): Rig
      reads this
    {
      Rig(targetPos, targetLookAt, currentPos, currentLookAt, savedPos, savedLookAt, prevFocused)
    }

    function GestureState(): Gesture
      reads this
    {
      Gesture(isDown, didDrag, startX, startY, pointerId)
    }

    /** Every ref starts at the store's camera target. */
    constructor (cam: CameraTarget)
      ensures RigState() == Rig(cam.position, cam.lookAt, cam.position, cam.lookAt, cam.position, cam.lookAt, None)
      ensures GestureState() == IDLE && pendingClears == 0
    {
      targetPos, targetLookAt := cam.position, cam.lookAt;
      currentPos, currentLookAt := cam.position, cam.lookAt;
      savedPos, savedLookAt := cam.position, cam.lookAt;
      prevFocused := None;
      isDown, didDrag, startX, startY, pointerId := false, false, 0.0, 0.0, -1;
      pendingClears := 0;
    }

    method Retarget(cam: CameraTarget, focused: Option<string>)
      modifies this
      ensures RigState() == RetargetOp(old(RigState()), cam, focused)
      ensures GestureState() == old(GestureState()) && pendingClears == old(pendingClears)
    {
      var wasFocused := prevFocused.Some?;
      var isFocused := focused.Some?;
      if !wasFocused && isFocused {
        savedPos, savedLookAt := targetPos, targetLookAt;
        targetPos, targetLookAt := cam.position, cam.lookAt;
      } else if wasFocused && !isFocused {
        targetPos, targetLookAt := savedPos, savedLookAt;
      } else {
        targetPos, targetLookAt := cam.position, cam.lookAt;
      }
      prevFocused := focused;
    }

    /** The wheel moves the target position along the view direction `forward`. */
    method Wheel(forward: Vec3, deltaY: real)
      modifies this
      ensures targetPos == old(targetPos).Plus(forward.Times(-deltaY * WHEEL_SPEED))
      ensures RigState() == old(RigState()).(targetPos := targetPos)
      ensures GestureState() == old(GestureState()) && pendingClears == old(pendingClears)
    {
      targetPos := targetPos.Plus(forward.Times(-deltaY * 0.01 * 0.5));
    }

    /** Only the primary button arms a gesture. */
    method PointerDown(button: int, x: real, y: real, id: int)
      modifies this
      ensures button != 0 ==> GestureState() == old(GestureState())
      ensures button == 0 ==> GestureState() == Gesture(true, false, x, y, id)
      ensures RigState() == old(RigState()) && pendingClears == old(pendingClears)
    {
      if button != 0 {
        return;
      }
      isDown := true;
      didDrag := false;
      startX, startY := x, y;
      pointerId := id;
    }

    /** A pointer move at (x, y) with `movementX/Y` since the last event,
        panning along the screen axes `right` and `up`. */
    method PointerMove(store: Store, x: real, y: real, movementX: real, movementY: real, right: Vec3, up: Vec3)
      requires store.Valid()
      modifies this`didDrag, this`targetPos, this`targetLookAt, store
      ensures store.Valid()
      ensures var (g, starts, pans) := MoveOp(old(GestureState()), x, y);
        var pan := PanOffset(right, up, movementX, movementY);
        && GestureState() == g
        && store.State() == (if starts then old(store.State()).(isDragging := true) else old(store.State()))
        && (pans ==> targetPos == old(targetPos).Plus(pan) && targetLookAt == old(targetLookAt).Plus(pan))
        && (!pans ==> targetPos == old(targetPos) && targetLookAt == old(targetLookAt))
    {
      var starts, pans := Track(x, y);
      if starts {
        store.SetDragging(true);
      }
      if pans {
        Pan(right, up, movementX, movementY);
      }
    }

    /** The gesture side of a pointer move: nothing unless armed; below the
        threshold before a drag nothing happens; the first move beyond it
        starts the drag; every move of a drag pans. */
    method Track(x: real, y: real) returns (starts: bool, pans: bool)
      modifies this`didDrag
      ensures (GestureState(), starts, pans) == MoveOp(old(GestureState()), x, y)
    {
      if !isDown {
        return false, false;
      }
      var dx := x - startX;
      var dy := y - startY;
      if !didDrag && dx * dx + dy * dy < DRAG_THRESHOLD * DRAG_THRESHOLD {
        return false, false;
      }
      starts := !didDrag;
      didDrag := true;
      pans := true;
    }

    /** Translate both targets along the screen axes. */
    method Pan(right: Vec3, up: Vec3, movementX: real, movementY: real)
      modifies this`targetPos, this`targetLookAt
      ensures var pan := PanOffset(right, up, movementX, movementY);
        targetPos == old(targetPos).Plus(pan) && targetLookAt == old(targetLookAt).Plus(pan)
    {
      var panX := -movementX * PAN_SPEED;
      var panY := movementY * PAN_SPEED;
      targetPos := targetPos.Plus(right.Times(panX)).Plus(up.Times(panY));
      targetLookAt := targetLookAt.Plus(right.Times(panX)).Plus(up.Times(panY));
    }

    /** Releasing after a drag schedules clearing the store's dragging flag;
        releasing after a click does not touch it. */
    method PointerUp()
      modifies this
      ensures !old(isDown) ==> GestureState() == old(GestureState()) && pendingClears == old(pendingClears)
      ensures old(isDown) ==>
        && GestureState() == old(GestureState()).(isDown := false, pointerId := if old(pointerId) >= 0 then -1 else old(pointerId))
        && pendingClears == old(pendingClears) + (if old(didDrag) then 1 else 0)
      ensures RigState() == old(RigState())
    {
      if !isDown {
        return;
      }
      if didDrag {
        pendingClears := pendingClears + 1;
      }
      isDown := false;
      if pointerId >= 0 {
        pointerId := -1;
      }
    }

    /** A scheduled clear runs. */
    method ClearTimerFires(store: Store)
      requires store.Valid() && pendingClears > 0
      modifies this, store
      ensures store.Valid() && store.State() == old(store.State()).(isDragging := false)
      ensures pendingClears == old(pendingClears) - 1
      ensures RigState() == old(RigState()) && GestureState() == old(GestureState())
    {
      pendingClears := pendingClears - 1;
      store.SetDragging(false);
    }

    /** Cancel (or a lost capture) disarms and clears dragging at once. */
    method PointerCancel(store: Store)
      requires store.Valid()
      modifies this, store
      ensures store.Valid() && store.State() == old(store.State()).(isDragging := false)
      ensures GestureState() == old(GestureState()).(isDown := false, pointerId := -1)
      ensures RigState() == old(RigState()) && pendingClears == old(pendingClears)
    {
      isDown := false;
      pointerId := -1;
      store.SetDragging(false);
    }

    /** Move both current values a fixed fraction of the way to their targets. */
    method Ease()
      modifies this`currentPos, this`currentLookAt
      ensures currentPos == Lerp(old(currentPos), targetPos, LERP_FACTOR)
      ensures currentLookAt == Lerp(old(currentLookAt), targetLookAt, LERP_FACTOR)
    {
      currentPos := Lerp(currentPos, targetPos, LERP_FACTOR);
      currentLookAt := Lerp(currentLookAt, targetLookAt, LERP_FACTOR);
    }

    /** One frame: ease both current values towards their targets, and end
        the transition once both are within 0.05 of them. */
    method Frame(store: Store)
      requires store.Valid()
      modifies this`currentPos, this`currentLookAt, store
      ensures store.Valid()
      ensures currentPos == Lerp(old(currentPos), targetPos, LERP_FACTOR)
      ensures currentLookAt == Lerp(old(currentLookAt), targetLookAt, LERP_FACTOR)
      ensures var arrived := Within(currentPos, targetPos, ARRIVED) && Within(currentLookAt, targetLookAt, ARRIVED);
        store.State() == if old(store.isTransitioning) && arrived
          then old(store.State()).(isTransitioning := false) else old(store.State())
    {
      Ease();
      if store.isTransitioning {
        if Within(currentPos, targetPos, ARRIVED) && Within(currentLookAt, targetLookAt, ARRIVED) {
          store.SetTransitioning(false);
        }
      }
    }
  }

  // ---------------------------------------------------------------------
  // Properties

  /** Focusing from the overview and later returning to it restores the
      overview targets as they were when the focus began (zoom included),
      however many focused changes came between. */
  lemma OverviewRoundTrip(r: Rig, cam: CameraTarget, id: string,
                          between: seq<(CameraTarget, Option<string>)>, back: CameraTarget)
    requires r.prevFocused.None?
    requires forall k :: 0 <= k < |between| ==> between[k].1.Some?
    ensures var t := RetargetOp(RetargetAll(RetargetOp(r, cam, Some(id)), between), back, None);
      t.targetPos == r.targetPos && t.targetLookAt == r.targetLookAt
  {
    FocusedRunKeepsSaved(RetargetOp(r, cam, Some(id)), between);
  }

  /** While the focus stays set the saved overview is untouched and the
      targets follow the store's camera. */
  lemma {:induction false} FocusedRunKeepsSaved(r: Rig, changes: seq<(CameraTarget, Option<string>)>)
    requires r.prevFocused.Some?
    requires forall k :: 0 <= k < |changes| ==> changes[k].1.Some?
    ensures var t := RetargetAll(r, changes);
      && t.savedPos == r.savedPos && t.savedLookAt == r.savedLookAt && t.prevFocused.Some?
      && (|changes| > 0 ==> t.targetPos == changes[|changes| - 1].0.position)
    decreases |changes|
  {
    if |changes| > 0 {
      var r1 := RetargetOp(r, changes[0].0, changes[0].1);
      FocusedRunKeepsSaved(r1, changes[1..]);
      if |changes| > 1 {
        assert changes[1..][|changes[1..]| - 1] == changes[|changes| - 1];
      }
    }
  }

  /** Panning moves position and look-at by the same vector, so the view
      direction is kept; wheel zoom moves the position only. */
  lemma PanKeepsViewVector(pos: Vec3, lookAt: Vec3, pan: Vec3)
    ensures lookAt.Plus(pan).Minus(pos.Plus(pan)) == lookAt.Minus(pos)
  {
  }

  /** Each frame shrinks the offset from the target by the factor 0.94. */
  lemma LerpContracts(v: Vec3, target: Vec3)
    ensures Lerp(v, target, LERP_FACTOR).Minus(target) == v.Minus(target).Times(1.0 - LERP_FACTOR)
  {
  }

  /** After n frames the offset is 0.94^n of the original. */
  lemma {:induction false} EaseConverges(v: Vec3, target: Vec3, n: nat)
    ensures Ease(v, target, n).Minus(target) == v.Minus(target).Times(Pow(0.94, n))
    decreases n
  {
    if n > 0 {
      var w := Lerp(v, target, LERP_FACTOR);
      EaseConverges(w, target, n - 1);
      LerpContracts(v, target);
      var d := v.Minus(target);
      var p := Pow(0.94, n - 1);
      assert (0.94 * d.x) * p == d.x * (0.94 * p);
      assert (0.94 * d.y) * p == d.y * (0.94 * p);
      assert (0.94 * d.z) * p == d.z * (0.94 * p);
    }
  }

  /** The easing factor stays in (0, 1] and shrinks with every frame. */
  lemma {:induction false} PowShrinks(n: nat)
    ensures 0.0 < Pow(0.94, n) <= 1.0
    ensures Pow(0.94, n + 1) < Pow(0.94, n)
  {
    if n > 0 {
      PowShrinks(n - 1);
    }
  }

  /** A gesture starts a drag at most once, and never again once dragging. */
  lemma {:induction false} AtMostOneDragStart(g: Gesture, moves: seq<(real, real)>)
    ensures DragStarts(g, moves) <= (if g.didDrag then 0 else 1)
    ensures g.didDrag ==> AfterMoves(g, moves).didDrag
    decreases |moves|
  {
    if |moves| > 0 {
      var (g1, starts, _) := MoveOp(g, moves[0].0, moves[0].1);
      AtMostOneDragStart(g1, moves[1..]);
    }
  }

  /** Moves that stay within 5 px of the press never start a drag nor pan,
      so the release that follows is a click. */
  lemma {:induction false} SmallMovesAreAClick(g: Gesture, moves: seq<(real, real)>)
    requires g.isDown && !g.didDrag
    requires forall k :: 0 <= k < |moves| ==> !BeyondThreshold(moves[k].0 - g.startX, moves[k].1 - g.startY)
    ensures AfterMoves(g, moves) == g && DragStarts(g, moves) == 0
    decreases |moves|
  {
    if |moves| > 0 {
      assert MoveOp(g, moves[0].0, moves[0].1) == (g, false, false);
      forall k | 0 <= k < |moves[1..]|
        ensures !BeyondThreshold(moves[1..][k].0 - g.startX, moves[1..][k].1 - g.startY)
      {
        assert moves[1..][k] == moves[k + 1];
      }
      SmallMovesAreAClick(g, moves[1..]);
    }
  }

  /** An unarmed pointer ignores moves. */
  lemma UnarmedIgnoresMoves(g: Gesture, x: real, y: real)
    requires !g.isDown
    ensures MoveOp(g, x, y) == (g, false, false)
  {
  }
}
