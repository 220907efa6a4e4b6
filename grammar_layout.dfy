/** The semantic layout: each panel's (processStep, segment, detailLevel)
    address becomes a position in space, centred on the data's own span along
    X and Y, receding along Z with depth. */
module GrammarLayout {
  import opened Panels

  const X_SPACING: real := 4.0
  const Y_SPACING: real := 3.0
  const Z_SPACING: real := 4.0
  const Z_BASE: real := -8.0

  /** `Math.max(...s)` for a non-empty list. */
  function MaxOf(s: seq<int>): (m: int)
    requires |s| > 0
    ensures m in s
    ensures forall i :: 0 <= i < |s| ==> s[i] <= m
  {
    if |s| == 1 then s[0]
    else if s[0] >= MaxOf(s[1..]) then s[0]
    else MaxOf(s[1..])
  }

  function Steps(panels: seq<Panel>): (r: seq<int>)
    ensures |r| == |panels|
    ensures forall i :: 0 <= i < |panels| ==> r[i] == panels[i].semantic.processStep
  {
    seq(|panels|, i requires 0 <= i < |panels| => panels[i].semantic.processStep)
  }

  /** `panels.map((p) => p.semantic.segment).filter((s) => s !== null)` */
  function SegmentValues(panels: seq<Panel>): (r: seq<int>)
    ensures forall v :: v in r <==> exists i :: 0 <= i < |panels| && panels[i].semantic.segment == Some(v)
    ensures forall i :: 0 <= i < |panels| && panels[i].semantic.segment.Some? ==> panels[i].semantic.segment.value in r
  {
    if |panels| == 0 then []
    else
      var rest := SegmentValues(panels[1..]);
      assert forall i :: 1 <= i < |panels| ==> panels[i] == panels[1..][i - 1];
      match panels[0].semantic.segment
      case None => rest
      case Some(v) => [v] + rest
  }

  function MaxStep(panels: seq<Panel>): int
    requires |panels| > 0
  {
    MaxOf(Steps(panels))
  }

  /** The largest non-null segment, or 0 when every segment is null. */
  function MaxSegment(panels: seq<Panel>): int {
    var segs := SegmentValues(panels);
    if |segs| > 0 then MaxOf(segs) else 0
  }

  function Place(p: Panel, maxStep: int, maxSegment: int): PanelPosition {
    var x := p.semantic.processStep as real * X_SPACING - (maxStep as real * X_SPACING) / 2.0;
    var y := SegOrZero(p.semantic.segment) as real * Y_SPACING - (maxSegment as real * Y_SPACING) / 2.0;
    var z := Z_BASE - p.semantic.detailLevel as real * Z_SPACING;
    PanelPosition(Vec3(x, y, z), Vec3(0.0, 0.0, 0.0), 1.0)
  }

  /** `grammarLayout(panels)`: one position per panel, index-aligned. */
  function Layout(panels: seq<Panel>): (r: seq<PanelPosition>)
    ensures |r| == |panels|
  {
    if |panels| == 0 then []
    else
      var maxStep, maxSegment := MaxStep(panels), MaxSegment(panels);
      seq(|panels|, i requires 0 <= i < |panels| => Place(panels[i], maxStep, maxSegment))
  }

  // ---------------------------------------------------------------------
  // Properties

  /** The layout of the empty list is empty; otherwise it is index-aligned and
      every panel faces the viewer (zero rotation) at unit scale. */
  lemma LayoutShape(panels: seq<Panel>)
    ensures panels == [] ==> Layout(panels) == []
    ensures forall i :: 0 <= i < |panels| ==>
      Layout(panels)[i].rotation == Vec3(0.0, 0.0, 0.0) && Layout(panels)[i].scale == 1.0
  {
  }

  /** x = 4 * processStep - 2 * maxStep, y = 3 * (segment ?? 0) - 1.5 * maxSegment,
      z = -8 - 4 * detailLevel, where maxSegment ranges over non-null segments only. */
  lemma LayoutCoordinates(panels: seq<Panel>, i: nat)
    requires i < |panels|
    ensures var s := panels[i].semantic;
      Layout(panels)[i].position
        == Vec3(4.0 * s.processStep as real - 2.0 * MaxStep(panels) as real,
                3.0 * SegOrZero(s.segment) as real - 1.5 * MaxSegment(panels) as real,
                -8.0 - 4.0 * s.detailLevel as real)
  {
  }

  /** X is strictly increasing in processStep; the extreme steps 0 and maxStep
      land at -2 * maxStep and +2 * maxStep, symmetric about the origin. */
  lemma XCentred(panels: seq<Panel>, i: nat, j: nat)
    requires i < |panels| && j < |panels|
    ensures panels[i].semantic.processStep < panels[j].semantic.processStep
      ==> Layout(panels)[i].position.x < Layout(panels)[j].position.x
    ensures panels[i].semantic.processStep == 0
      ==> Layout(panels)[i].position.x == -2.0 * MaxStep(panels) as real
    ensures panels[i].semantic.processStep == MaxStep(panels)
      ==> Layout(panels)[i].position.x == 2.0 * MaxStep(panels) as real
    ensures panels[i].semantic.processStep + panels[j].semantic.processStep == MaxStep(panels)
      ==> Layout(panels)[i].position.x == -Layout(panels)[j].position.x
  {
  }

  /** With steps {0, 2} the two panels sit on opposite sides of x = 0, the larger step to the right. */
  lemma StepsZeroAndTwo(a: Panel, b: Panel)
    requires a.semantic.processStep == 0 && b.semantic.processStep == 2
    ensures Layout([a, b])[0].position.x < 0.0 < Layout([a, b])[1].position.x
  {
    assert Steps([a, b]) == [0, 2];
  }

  /** maxSegment ignores null segments, and is 0 when all are null. */
  lemma {:induction false} MaxSegmentOfNonNull(panels: seq<Panel>)
    ensures (forall i :: 0 <= i < |panels| ==> panels[i].semantic.segment.None?) ==> MaxSegment(panels) == 0
    ensures forall i :: 0 <= i < |panels| && panels[i].semantic.segment.Some? ==>
              panels[i].semantic.segment.value <= MaxSegment(panels)
    ensures (exists i :: 0 <= i < |panels| && panels[i].semantic.segment.Some?)
      ==> exists i :: 0 <= i < |panels| && panels[i].semantic.segment == Some(MaxSegment(panels))
  {
    var segs := SegmentValues(panels);
    if |segs| > 0 {
      forall i | 0 <= i < |panels| && panels[i].semantic.segment.Some?
        ensures panels[i].semantic.segment.value <= MaxSegment(panels)
      {
        var v := panels[i].semantic.segment.value;
        assert v in segs;
        var k :| 0 <= k < |segs| && segs[k] == v;
      }
    }
  }

  /** Y is increasing in segment, and Z strictly decreases as detail deepens. */
  lemma YAndZOrder(panels: seq<Panel>, i: nat, j: nat)
    requires i < |panels| && j < |panels|
    ensures SegOrZero(panels[i].semantic.segment) < SegOrZero(panels[j].semantic.segment)
      ==> Layout(panels)[i].position.y < Layout(panels)[j].position.y
    ensures panels[i].semantic.detailLevel < panels[j].semantic.detailLevel
      ==> Layout(panels)[i].position.z > Layout(panels)[j].position.z
  {
  }

  lemma MaxOfUnique(s: seq<int>, t: seq<int>)
    requires |s| > 0 && |t| > 0
    requires forall v :: v in s <==> v in t
    ensures MaxOf(s) == MaxOf(t)
  {
    var a, b := MaxOf(s), MaxOf(t);
    assert a in t;
    assert b in s;
    var i :| 0 <= i < |t| && t[i] == a;
    var j :| 0 <= j < |s| && s[j] == b;
  }

  /** Permuting the panel list permutes the layout the same way: the
      centring terms depend only on which panels are present. */
  lemma {:induction false} LayoutPermutation(a: seq<Panel>, b: seq<Panel>, i: nat, j: nat)
    requires multiset(a) == multiset(b)
    requires i < |a| && j < |b| && a[i] == b[j]
    ensures Layout(a)[i] == Layout(b)[j]
  {
    assert |a| == |multiset(a)| == |b|;
    forall p ensures p in a <==> p in b {
      assert p in a <==> p in multiset(a);
      assert p in b <==> p in multiset(b);
    }
    forall v ensures v in Steps(a) <==> v in Steps(b) {
      if v in Steps(a) {
        var k :| 0 <= k < |a| && Steps(a)[k] == v;
        assert a[k] in b;
        var m :| 0 <= m < |b| && b[m] == a[k];
        assert Steps(b)[m] == v;
      }
      if v in Steps(b) {
        var k :| 0 <= k < |b| && Steps(b)[k] == v;
        assert b[k] in a;
        var m :| 0 <= m < |a| && a[m] == b[k];
        assert Steps(a)[m] == v;
      }
    }
    MaxOfUnique(Steps(a), Steps(b));
    forall v ensures v in SegmentValues(a) <==> v in SegmentValues(b) {
      if v in SegmentValues(a) {
        var k :| 0 <= k < |a| && a[k].semantic.segment == Some(v);
        assert a[k] in b;
        var m :| 0 <= m < |b| && b[m] == a[k];
      }
      if v in SegmentValues(b) {
        var k :| 0 <= k < |b| && b[k].semantic.segment == Some(v);
        assert b[k] in a;
        var m :| 0 <= m < |a| && a[m] == b[k];
      }
    }
    var sa, sb := SegmentValues(a), SegmentValues(b);
    assert |sa| > 0 ==> sa[0] in sb;
    assert |sb| > 0 ==> sb[0] in sa;
    if |sa| > 0 {
      MaxOfUnique(sa, sb);
    }
  }
}
