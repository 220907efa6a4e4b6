/** The room layout: the panels hang on three walls of a virtual gallery,
    the first third (rounded up) on the left wall, the next third on the
    front wall and the rest on the right wall, evenly spaced along each wall.
    Rotations are in multiples of pi, as in `Panels.PanelPosition`. */
module RoomLayout {
  import opened Panels

  const DEFAULT_ROOM_WIDTH: real := 12.0
  const DEFAULT_ROOM_DEPTH: real := 8.0

  function Min(a: int, b: int): int { if a <= b then a else b }

  /** `s.slice(start, end)` for non-negative bounds: both are clamped to the length. */
  function Slice<T>(s: seq<T>, start: nat, end: nat): (r: seq<T>)
    ensures |r| == if Min(end, |s|) <= start then 0 else Min(end, |s|) - start
  {
    var e := Min(end, |s|);
    if e <= start then [] else s[start..e]
  }

  /** `Math.ceil(count / 3)` */
  function PerWall(count: nat): (r: nat)
    ensures 3 * r >= count && 3 * r < count + 3
  {
    (count + 2) / 3
  }

  /** How many panels each wall receives. */
  function LeftCount(count: nat): nat { Min(PerWall(count), count) }
  function FrontCount(count: nat): nat {
    if Min(2 * PerWall(count), count) <= PerWall(count) then 0 else Min(2 * PerWall(count), count) - PerWall(count)
  }
  function RightCount(count: nat): nat {
    if count <= 2 * PerWall(count) then 0 else count - 2 * PerWall(count)
  }

  /** Slot `i` of `len` evenly spaced slots along a wall of length `extent`
      centred on the origin. */
  function Slot(i: nat, len: nat, extent: real): real {
    -extent / 2.0 + extent / (len + 1) as real * (i + 1) as real
  }

  function LeftPlace(i: nat, len: nat, width: real, depth: real): PanelPosition {
    PanelPosition(Vec3(-width / 2.0, 0.0, Slot(i, len, depth)), Vec3(0.0, 0.5, 0.0), 1.0)
  }

  function FrontPlace(i: nat, len: nat, width: real, depth: real): PanelPosition {
    PanelPosition(Vec3(Slot(i, len, width), 0.0, -depth / 2.0), Vec3(0.0, 0.0, 0.0), 1.0)
  }

  function RightPlace(i: nat, len: nat, width: real, depth: real): PanelPosition {
    PanelPosition(Vec3(width / 2.0, 0.0, Slot(i, len, depth)), Vec3(0.0, -0.5, 0.0), 1.0)
  }

  /** Where the `k`-th of `count` panels goes. */
  function PlaceAt(count: nat, k: nat, width: real, depth: real): PanelPosition {
    var perWall := PerWall(count);
    if k < perWall then LeftPlace(k, LeftCount(count), width, depth)
    else if k < 2 * perWall then FrontPlace(k - perWall, FrontCount(count), width, depth)
    else RightPlace(k - 2 * perWall, RightCount(count), width, depth)
  }

  /** `roomLayout(panels, roomWidth, roomDepth)` */
  method Layout(panels: seq<Panel>, roomWidth: real, roomDepth: real) returns (positions: seq<PanelPosition>)
    ensures |positions| == |panels|
    ensures forall k :: 0 <= k < |panels| ==> positions[k] == PlaceAt(|panels|, k, roomWidth, roomDepth)
  {
    var count := |panels|;
    if count == 0 {
      return [];
    }
    var perWall := (count + 2) / 3;
    var leftPanels := Slice(panels, 0, perWall);
    var frontPanels := Slice(panels, perWall, perWall * 2);
    var rightPanels := Slice(panels, perWall * 2, count);
    assert perWall == PerWall(count) && |leftPanels| == LeftCount(count) == perWall;
    assert |frontPanels| == FrontCount(count) && |rightPanels| == RightCount(count);
    WallCounts(count);
    var left := PushWall([], |leftPanels|, roomWidth, roomDepth, LeftWall);
    var front := PushWall(left, |frontPanels|, roomWidth, roomDepth, FrontWall);
    positions := PushWall(front, |rightPanels|, roomWidth, roomDepth, RightWall);
    forall k | 0 <= k < count
      ensures positions[k] == PlaceAt(count, k, roomWidth, roomDepth)
    {
      if k < perWall {
        assert positions[k] == front[k] == left[0 + k];
        assert left[0 + k] == WallPlace(LeftWall, k, LeftCount(count), roomWidth, roomDepth);
      } else if k < 2 * perWall {
        assert positions[k] == front[|left| + (k - perWall)];
        assert front[|left| + (k - perWall)] == WallPlace(FrontWall, k - perWall, FrontCount(count), roomWidth, roomDepth);
      } else {
        assert positions[k] == positions[|front| + (k - 2 * perWall)];
        assert positions[|front| + (k - 2 * perWall)]
          == WallPlace(RightWall, k - 2 * perWall, RightCount(count), roomWidth, roomDepth);
      }
    }
  }

  /** The three walls, each with its own loop in `roomLayout`. */
  datatype Wall = LeftWall | FrontWall | RightWall

  /** Slot `i` of `len` on a wall. */
  function WallPlace(wall: Wall, i: nat, len: nat, width: real, depth: real): PanelPosition {
    match wall
    case LeftWall => LeftPlace(i, len, width, depth)
    case FrontWall => FrontPlace(i, len, width, depth)
    case RightWall => RightPlace(i, len, width, depth)
  }

  /** One wall's loop: pushes the wall's `len` evenly spaced positions. */
  method PushWall(positions: seq<PanelPosition>, len: nat, roomWidth: real, roomDepth: real, wall: Wall)
    returns (r: seq<PanelPosition>)
    ensures |r| == |positions| + len
    ensures forall k :: 0 <= k < |positions| ==> r[k] == positions[k]
    ensures forall i :: 0 <= i < len ==> r[|positions| + i] == WallPlace(wall, i, len, roomWidth, roomDepth)
  {
    r := positions;
    var halfWidth := roomWidth / 2.0;
    var wallY := 0.0;
    for i := 0 to len
      invariant |r| == |positions| + i
      invariant forall k :: 0 <= k < |positions| ==> r[k] == positions[k]
      invariant forall j :: 0 <= j < i ==> r[|positions| + j] == WallPlace(wall, j, len, roomWidth, roomDepth)
    {
      var next;
      match wall {
      case LeftWall =>
        var spacing := roomDepth / (len + 1) as real;
        var z := -roomDepth / 2.0 + spacing * (i + 1) as real;
        next := PanelPosition(Vec3(-halfWidth, wallY, z), Vec3(0.0, 0.5, 0.0), 1.0);
      case FrontWall =>
        var spacing := roomWidth / (len + 1) as real;
        var x := -halfWidth + spacing * (i + 1) as real;
        next := PanelPosition(Vec3(x, wallY, -roomDepth / 2.0), Vec3(0.0, 0.0, 0.0), 1.0);
      case RightWall =>
        var spacing := roomDepth / (len + 1) as real;
        var z := -roomDepth / 2.0 + spacing * (i + 1) as real;
        next := PanelPosition(Vec3(halfWidth, wallY, z), Vec3(0.0, -0.5, 0.0), 1.0);
      }
      r := r + [next];
    }
  }

  /** The left wall takes ceil(n/3) panels; the front and right walls take at
      most as many; together they take all n. */
  lemma WallCounts(count: nat)
    requires count > 0
    ensures LeftCount(count) == PerWall(count)
    ensures FrontCount(count) <= PerWall(count) && RightCount(count) <= PerWall(count)
    ensures LeftCount(count) + FrontCount(count) + RightCount(count) == count
  {
  }

  /** Each panel's wall, rotation and height: left wall at x = -W/2 turned by
      pi/2, front wall at z = -D/2 facing forward, right wall at x = +W/2
      turned by -pi/2; all at y = 0 with scale 1. */
  lemma Placement(count: nat, k: nat, width: real, depth: real)
    requires k < count
    ensures var p := PlaceAt(count, k, width, depth);
      && p.position.y == 0.0 && p.scale == 1.0
      && (k < LeftCount(count) ==>
            p.position.x == -width / 2.0 && p.rotation == Vec3(0.0, 0.5, 0.0))
      && (LeftCount(count) <= k < LeftCount(count) + FrontCount(count) ==>
            p.position.z == -depth / 2.0 && p.rotation == Vec3(0.0, 0.0, 0.0))
      && (LeftCount(count) + FrontCount(count) <= k ==>
            p.position.x == width / 2.0 && p.rotation == Vec3(0.0, -0.5, 0.0))
  {
    WallCounts(count);
  }

  /** The slots of a wall lie strictly inside it. */
  lemma SlotInside(i: nat, len: nat, extent: real)
    requires i < len && extent > 0.0
    ensures -extent / 2.0 < Slot(i, len, extent) < extent / 2.0
  {
    var spacing := extent / (len + 1) as real;
    assert spacing * (len + 1) as real == extent;
    assert 0.0 < spacing;
    assert spacing * (i + 1) as real < spacing * (len + 1) as real by {
      assert (i + 1) as real < (len + 1) as real;
    }
  }

  /** The slots of a wall are strictly increasing. */
  lemma SlotIncreasing(i: nat, j: nat, len: nat, extent: real)
    requires i < j && extent > 0.0
    ensures Slot(i, len, extent) < Slot(j, len, extent)
  {
    var spacing := extent / (len + 1) as real;
    assert 0.0 < spacing;
    assert spacing * (i + 1) as real < spacing * (j + 1) as real by {
      assert (i + 1) as real < (j + 1) as real;
    }
  }

  /** Panels on the same wall, in list order, are strictly increasing along
      it: z on the side walls, x on the front wall. */
  lemma WallOrder(count: nat, k: nat, l: nat, width: real, depth: real)
    requires k < l < count && width > 0.0 && depth > 0.0
    ensures var p, q := PlaceAt(count, k, width, depth), PlaceAt(count, l, width, depth);
      && (l < LeftCount(count) ==> p.position.z < q.position.z)
      && (LeftCount(count) <= k && l < LeftCount(count) + FrontCount(count) ==> p.position.x < q.position.x)
      && (LeftCount(count) + FrontCount(count) <= k ==> p.position.z < q.position.z)
  {
    WallCounts(count);
    var pw := PerWall(count);
    if l < pw {
      SlotIncreasing(k, l, LeftCount(count), depth);
    } else if pw <= k && l < 2 * pw {
      SlotIncreasing(k - pw, l - pw, FrontCount(count), width);
    } else if 2 * pw <= k {
      SlotIncreasing(k - 2 * pw, l - 2 * pw, RightCount(count), depth);
    }
  }

  /** Every panel hangs strictly inside its wall: side-wall z within the
      room's depth, front-wall x within its width. */
  lemma InsideRoom(count: nat, k: nat, width: real, depth: real)
    requires k < count && width > 0.0 && depth > 0.0
    ensures var p := PlaceAt(count, k, width, depth);
      && (LeftCount(count) <= k < LeftCount(count) + FrontCount(count) ==> -width / 2.0 < p.position.x < width / 2.0)
      && (k < LeftCount(count) || LeftCount(count) + FrontCount(count) <= k ==> -depth / 2.0 < p.position.z < depth / 2.0)
  {
    WallCounts(count);
    var pw := PerWall(count);
    if k < pw {
      SlotInside(k, LeftCount(count), depth);
    } else if k < 2 * pw {
      SlotInside(k - pw, FrontCount(count), width);
    } else {
      SlotInside(k - 2 * pw, RightCount(count), depth);
    }
  }

  /** With the default 12 x 8 room, front-wall panels stay within 6 of the
      centre line and side-wall panels within 4. */
  lemma DefaultRoomInside(count: nat, k: nat)
    requires k < count
    ensures var p := PlaceAt(count, k, DEFAULT_ROOM_WIDTH, DEFAULT_ROOM_DEPTH);
      && (LeftCount(count) <= k < LeftCount(count) + FrontCount(count) ==> -6.0 < p.position.x < 6.0)
      && (k < LeftCount(count) || LeftCount(count) + FrontCount(count) <= k ==> -4.0 < p.position.z < 4.0)
  {
    InsideRoom(count, k, DEFAULT_ROOM_WIDTH, DEFAULT_ROOM_DEPTH);
  }
}
