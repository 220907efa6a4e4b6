/** The panel record shared by every part of the navigation engine, as the
    store and the mock dataset use it: a semantic address on three axes, an
    optional parent, and opaque chart data. */
module Panels {

  datatype Option<T> = None | Some(value: T)

  /** The three navigation axes: X = processStep, Y = segment, Z = detailLevel. */
  datatype Axis = X | Y | Z

  /** A step along an axis is +1 or -1. */
  type Direction = d: int | d == 1 || d == -1 witness 1

  /** A panel's coordinate in the navigation grammar; a null segment is the
      aggregated (all-segments) row. */
  datatype Semantic = Semantic(processStep: int, segment: Option<int>, detailLevel: int)

  /** One record of chart data, reduced to the name fields that are read:
      `metricLabel` is the `label` of a KPI metric, `product` of a product row, `stage` of a funnel stage. */
  datatype DataRow = DataRow(metricLabel: string, product: string, stage: string)

  /** Configuration of an embedded (iframe) report panel. */
  datatype EmbedConfig = EmbedConfig(
    url: string,
    provider: string,
    displayLabel: Option<string>,
    sandbox: Option<string>,
    drillMap: Option<map<string, string>>)

  /** Chart data: a list of records, an embed configuration, or a payload no
      modelled code reads. */
  datatype PanelData = Records(rows: seq<DataRow>) | Embed(config: EmbedConfig) | Opaque

  datatype Panel = Panel(
    id: string,
    title: string,
    chartType: string,
    data: PanelData,
    semantic: Semantic,
    parentId: Option<string>,
    segmentLabel: Option<string>,
    processLabel: Option<string>)

  /** A point or vector in scene space. */
  datatype Vec3 = Vec3(x: real, y: real, z: real) {
    function Plus(v: Vec3): Vec3 { Vec3(x + v.x, y + v.y, z + v.z) }
    function Minus(v: Vec3): Vec3 { Vec3(x - v.x, y - v.y, z - v.z) }
    function Times(c: real): Vec3 { Vec3(c * x, c * y, c * z) }
    function NormSquared(): real { x * x + y * y + z * z }
  }

  /** Where a layout places a panel. Rotation angles are kept as multiples of
      pi radians (so `Math.PI / 2` is 0.5), since pi itself is not a rational. */
  datatype PanelPosition = PanelPosition(position: Vec3, rotation: Vec3, scale: real)

  /** `segment ?? 0` */
  function SegOrZero(s: Option<int>): int {
    match s
    case None => 0
    case Some(v) => v
  }

  /** JavaScript truthiness of an optional string: absent and "" are false. */
  predicate Truthy(s: Option<string>) {
    s.Some? && s.value != ""
  }

  /** A panel has a parent exactly when its `parentId` is truthy. */
  predicate HasParent(p: Panel) {
    Truthy(p.parentId)
  }

  /** `panels.findIndex((p) => p.id === id)`; a null id matches nothing. */
  function FindIndexById(panels: seq<Panel>, id: Option<string>): (r: Option<nat>)
    ensures r.Some? ==> r.value < |panels| && id == Some(panels[r.value].id)
    ensures r.Some? ==> forall j :: 0 <= j < r.value ==> Some(panels[j].id) != id
    ensures r.None? ==> forall j :: 0 <= j < |panels| ==> Some(panels[j].id) != id
  {
    if |panels| == 0 then None
    else if id == Some(panels[0].id) then Some(0)
    else match FindIndexById(panels[1..], id)
      case None => None
      case Some(k) => Some(k + 1)
  }

  /** `panels.find((p) => p.id === id)` */
  function FindById(panels: seq<Panel>, id: Option<string>): Option<Panel> {
    match FindIndexById(panels, id)
    case None => None
    case Some(k) => Some(panels[k])
  }

  /** `panels.find((p) => !p.parentId)`: the first rootless panel. */
  function FindRoot(panels: seq<Panel>): (r: Option<nat>)
    ensures r.Some? ==> r.value < |panels| && !HasParent(panels[r.value])
    ensures r.Some? ==> forall j :: 0 <= j < r.value ==> HasParent(panels[j])
    ensures r.None? ==> forall j :: 0 <= j < |panels| ==> HasParent(panels[j])
  {
    if |panels| == 0 then None
    else if !HasParent(panels[0]) then Some(0)
    else match FindRoot(panels[1..])
      case None => None
      case Some(k) => Some(k + 1)
  }

  /** `panels.map((p) => p.id)` */
  function Ids(panels: seq<Panel>): (r: seq<string>)
    ensures |r| == |panels|
    ensures forall i :: 0 <= i < |panels| ==> r[i] == panels[i].id
  {
    if |panels| == 0 then [] else [panels[0].id] + Ids(panels[1..])
  }

  /** Panel ids are pairwise distinct. */
  predicate UniqueIds(panels: seq<Panel>) {
    forall i, j :: 0 <= i < j < |panels| ==> panels[i].id != panels[j].id
  }

  /** `s.filter(f)`: the elements satisfying `f`, in their original order. */
  function Filter<T(!new)>(s: seq<T>, f: T -> bool): (r: seq<T>)
    ensures |r| <= |s|
    ensures forall x :: x in r <==> x in s && f(x)
    ensures forall i :: 0 <= i < |r| ==> f(r[i])
  {
    if |s| == 0 then []
    else
      assert s == [s[0]] + s[1..];
      (if f(s[0]) then [s[0]] else []) + Filter(s[1..], f)
  }

  /** Whether a panel's `parentId` is `k`. */
  function ChildOf(k: string): Panel -> bool {
    (p: Panel) => p.parentId == Some(k)
  }

  /** The indices of `s` whose element passes `f`: every such index, once,
      in increasing order. */
  function PassingIndices<T>(s: seq<T>, f: T -> bool): (r: seq<nat>)
    ensures forall k :: 0 <= k < |r| ==> r[k] < |s| && f(s[r[k]])
    ensures forall k, l :: 0 <= k < l < |r| ==> r[k] < r[l]
    ensures forall i :: 0 <= i < |s| && f(s[i]) ==> i in r
  {
    if |s| == 0 then []
    else
      var init := PassingIndices(s[..|s| - 1], f);
      assert forall i :: 0 <= i < |s| - 1 ==> s[..|s| - 1][i] == s[i];
      init + (if f(s[|s| - 1]) then [|s| - 1] else [])
  }

  /** Filtering the list extended by one element extends the filtered list
      by that element exactly when it passes. */
  lemma {:induction false} FilterSnoc<T(!new)>(s: seq<T>, x: T, f: T -> bool)
    ensures Filter(s + [x], f) == Filter(s, f) + (if f(x) then [x] else [])
  {
    if |s| == 0 {
      assert [x] + [] == [x];
    } else {
      assert (s + [x])[1..] == s[1..] + [x];
      FilterSnoc(s[1..], x, f);
    }
  }

  /** `filter` keeps order and multiplicity: its k-th element is the input's
      element at the k-th passing index. */
  lemma {:induction false} FilterOrder<T(!new)>(s: seq<T>, f: T -> bool)
    ensures var r, idx := Filter(s, f), PassingIndices(s, f);
      |r| == |idx| && forall k :: 0 <= k < |r| ==> r[k] == s[idx[k]]
  {
    if |s| > 0 {
      var init, x := s[..|s| - 1], s[|s| - 1];
      assert s == init + [x];
      FilterSnoc(init, x, f);
      FilterOrder(init, f);
    }
  }

  /** For an increasing index map `idx` from `r` into `s` that covers every
      index passing `f`: a passing index below `idx[i]` is hit at a position
      below `i`, and one above `idx[i]` at a position above `i`. */
  lemma EmbeddingPosition<T>(s: seq<T>, r: seq<T>, idx: seq<nat>, f: T -> bool, i: nat)
    requires |r| == |idx| && i < |r|
    requires forall k :: 0 <= k < |r| ==> idx[k] < |s| && r[k] == s[idx[k]]
    requires forall k, l :: 0 <= k < l < |idx| ==> idx[k] < idx[l]
    requires forall m :: 0 <= m < |s| && f(s[m]) ==> m in idx
    ensures forall m :: 0 <= m < idx[i] && f(s[m]) ==> exists j :: 0 <= j < i && r[j] == s[m]
    ensures forall m :: idx[i] < m < |s| && f(s[m]) ==> exists j :: i < j < |r| && r[j] == s[m]
  {
    forall m | 0 <= m < |s| && f(s[m])
      ensures m < idx[i] ==> exists j :: 0 <= j < i && r[j] == s[m]
      ensures m > idx[i] ==> exists j :: i < j < |r| && r[j] == s[m]
    {
      var j :| 0 <= j < |idx| && idx[j] == m;
      assert r[j] == s[m];
    }
  }

  /** The filtered element at position `i` sits at input index
      `PassingIndices(s, f)[i]`; every passing element before that index
      comes before position `i`, and every one after it comes after. */
  lemma FilterPosition<T(!new)>(s: seq<T>, f: T -> bool, i: nat)
    requires i < |Filter(s, f)|
    ensures i < |PassingIndices(s, f)|
    ensures var r, n := Filter(s, f), PassingIndices(s, f)[i];
      && n < |s| && s[n] == r[i]
      && (forall m :: 0 <= m < n && f(s[m]) ==> exists j :: 0 <= j < i && r[j] == s[m])
      && (forall m :: n < m < |s| && f(s[m]) ==> exists j :: i < j < |r| && r[j] == s[m])
  {
    FilterOrder(s, f);
    EmbeddingPosition(s, Filter(s, f), PassingIndices(s, f), f, i);
  }

  /** An element of `Filter(s, f)` that no earlier element matches on `key`
      is matched by no earlier passing element of `s`. */
  lemma FirstInFilter<T(!new)>(s: seq<T>, f: T -> bool, key: T -> int, i: nat)
    requires i < |Filter(s, f)|
    requires forall j :: 0 <= j < i ==> key(Filter(s, f)[j]) != key(Filter(s, f)[i])
    ensures exists n ::
      && 0 <= n < |s| && s[n] == Filter(s, f)[i]
      && forall m :: 0 <= m < n && f(s[m]) ==> key(s[m]) != key(s[n])
  {
    FilterPosition(s, f, i);
    var n := PassingIndices(s, f)[i];
    assert s[n] == Filter(s, f)[i];
  }

  /** An element of `Filter(s, f)` that no later element matches on `key`
      is matched by no later passing element of `s`. */
  lemma LastInFilter<T(!new)>(s: seq<T>, f: T -> bool, key: T -> int, i: nat)
    requires i < |Filter(s, f)|
    requires forall j :: i < j < |Filter(s, f)| ==> key(Filter(s, f)[j]) != key(Filter(s, f)[i])
    ensures exists n ::
      && 0 <= n < |s| && s[n] == Filter(s, f)[i]
      && forall m :: n < m < |s| && f(s[m]) ==> key(s[m]) != key(s[n])
  {
    FilterPosition(s, f, i);
    var n := PassingIndices(s, f)[i];
    assert s[n] == Filter(s, f)[i];
  }
}
