/** The embed variant of the dashboard dataset: every panel becomes an
    iframe report panel whose URL names the panel, and a panel with children
    gets a drill map from its chart's category labels to its child panels.
    The children of each parent are grouped by one pass over the panel list
    and then stably sorted, by processStep under a level-0 parent and by
    segment (null as 0) under any other. */
module EmbedMockData {
  import opened Panels
  import opened StableSort

  const REPORTS_PROD := "https://accionlabs.github.io/3danalytics-reports/#/panel"
  const REPORTS_LOCAL := "http://localhost:5174/3danalytics-reports/#/panel"

  /** The report site: the local one in a development build. */
  function ReportsBase(isDev: bool): string {
    if isDev then REPORTS_LOCAL else REPORTS_PROD
  }

  // ---------------------------------------------------------------------
  // childMap

  /** Reference definition: the ids of the panels whose parent is `k`, in list order. */
  function ChildIds(panels: seq<Panel>, k: string): seq<string> {
    Ids(Filter(panels, ChildOf(k)))
  }

  /** The first pass: each panel with a truthy `parentId` is appended to its
      parent's list, and a parent's list is created on its first child. */
  function Grouped(panels: seq<Panel>): map<string, seq<string>> {
    if |panels| == 0 then map[]
    else
      var g := Grouped(panels[..|panels| - 1]);
      var p := panels[|panels| - 1];
      if !HasParent(p) then g
      else
        var siblings := if p.parentId.value in g then g[p.parentId.value] else [];
        g[p.parentId.value := siblings + [p.id]]
  }

  /** The sort key of the children of `parentId`: a child's processStep when
      the parent exists at detail level 0, else its segment (null as 0). The
      child is looked up by id, first match. */
  function ChildKey(panels: seq<Panel>, parentId: string): string -> int {
    var byStep := match FindById(panels, Some(parentId))
      case Some(parent) => parent.semantic.detailLevel == 0
      case None => false;
    (id: string) =>
      match FindById(panels, Some(id))
      case Some(p) => if byStep then p.semantic.processStep else SegOrZero(p.semantic.segment)
      case None => 0
  }

  /** The second pass: every list of `g` stably sorted by its parent's key. */
  function SortedGroups(panels: seq<Panel>, g: map<string, seq<string>>): map<string, seq<string>> {
    map k | k in g :: SortBy(g[k], ChildKey(panels, k))
  }

  /** `childMap`: parent id to sorted child ids. */
  function ChildMap(panels: seq<Panel>): map<string, seq<string>> {
    SortedGroups(panels, Grouped(panels))
  }

  method GroupChildren(panels: seq<Panel>) returns (m: map<string, seq<string>>)
    ensures m == Grouped(panels)
  {
    m := map[];
    for i := 0 to |panels|
      invariant m == Grouped(panels[..i])
    {
      assert panels[..i + 1][..i] == panels[..i];
      var p := panels[i];
      if HasParent(p) {
        var siblings := if p.parentId.value in m then m[p.parentId.value] else [];
        m := m[p.parentId.value := siblings + [p.id]];
      }
    }
    assert panels[..|panels|] == panels;
  }

  /** The second loop: every list of `g` replaced by its sorted copy;
      `sort(k, l)` is the stable sort of `l` by the comparator of parent `k`. */
  method SortChildren(g: map<string, seq<string>>, sort: (string, seq<string>) -> seq<string>)
    returns (m: map<string, seq<string>>)
    ensures m == map k | k in g :: sort(k, g[k])
  {
    m := g;
    var todo := g.Keys;
    while todo != {}
      invariant todo <= g.Keys && m.Keys == g.Keys
      invariant forall k :: k in g ==> m[k] == if k in todo then g[k] else sort(k, g[k])
      decreases |todo|
    {
      var k :| k in todo;
      m := m[k := sort(k, m[k])];
      todo := todo - {k};
    }
  }

  method BuildChildMap(panels: seq<Panel>) returns (m: map<string, seq<string>>)
    ensures m == ChildMap(panels)
  {
    var g := GroupChildren(panels);
    m := SortChildren(g, (k, l) => SortBy(l, ChildKey(panels, k)));
  }

  lemma IdsSnoc(s: seq<Panel>, x: Panel)
    ensures Ids(s + [x]) == Ids(s) + [x.id]
  {
  }

  lemma ChildIdsSnoc(panels: seq<Panel>, k: string)
    requires |panels| > 0
    ensures ChildIds(panels, k) == ChildIds(panels[..|panels| - 1], k)
      + (if panels[|panels| - 1].parentId == Some(k) then [panels[|panels| - 1].id] else [])
  {
    var init, p := panels[..|panels| - 1], panels[|panels| - 1];
    assert panels == init + [p];
    FilterSnoc(init, p, ChildOf(k));
    IdsSnoc(Filter(init, ChildOf(k)), p);
  }

  /** The ids listed for `k` are exactly those of the panels whose parent is `k`. */
  lemma ChildIdsMembers(panels: seq<Panel>, k: string, x: string)
    ensures x in ChildIds(panels, k) <==> exists j :: 0 <= j < |panels| && panels[j].id == x && panels[j].parentId == Some(k)
  {
    var f := Filter(panels, ChildOf(k));
    if x in ChildIds(panels, k) {
      var t :| 0 <= t < |f| && Ids(f)[t] == x;
      assert f[t] in panels;
    }
    if exists j :: 0 <= j < |panels| && panels[j].id == x && panels[j].parentId == Some(k) {
      var j :| 0 <= j < |panels| && panels[j].id == x && panels[j].parentId == Some(k);
      assert ChildOf(k)(panels[j]);
      assert panels[j] in f;
      var t :| 0 <= t < |f| && f[t] == panels[j];
      assert Ids(f)[t] == x;
    }
  }

  /** The first pass lists, for each truthy parent id, exactly its children in list order. */
  lemma {:induction false} GroupedIsChildIds(panels: seq<Panel>)
    ensures forall k :: k in Grouped(panels) <==> k != "" && |ChildIds(panels, k)| > 0
    ensures forall k :: k in Grouped(panels) ==> Grouped(panels)[k] == ChildIds(panels, k)
  {
    if |panels| > 0 {
      var init, p := panels[..|panels| - 1], panels[|panels| - 1];
      GroupedIsChildIds(init);
      forall k
        ensures k in Grouped(panels) <==> k != "" && |ChildIds(panels, k)| > 0
        ensures k in Grouped(panels) ==> Grouped(panels)[k] == ChildIds(panels, k)
      {
        ChildIdsSnoc(panels, k);
      }
    }
  }

  /** The parents in `childMap` are the truthy parent ids that occur. */
  lemma ChildMapKeys(panels: seq<Panel>, k: string)
    ensures k in ChildMap(panels) <==> k != "" && exists j :: 0 <= j < |panels| && panels[j].parentId == Some(k)
  {
    GroupedIsChildIds(panels);
    if k != "" && exists j :: 0 <= j < |panels| && panels[j].parentId == Some(k) {
      var j :| 0 <= j < |panels| && panels[j].parentId == Some(k);
      ChildIdsMembers(panels, k, panels[j].id);
    }
    if k in ChildMap(panels) {
      var x := ChildIds(panels, k)[0];
      ChildIdsMembers(panels, k, x);
    }
  }

  /** Each parent's list holds the same ids as its children, sorted by the
      parent's key, with equal keys in list order. */
  lemma ChildMapOrder(panels: seq<Panel>, k: string, v: int)
    requires k in ChildMap(panels)
    ensures multiset(ChildMap(panels)[k]) == multiset(ChildIds(panels, k))
    ensures Sorted(ChildMap(panels)[k], ChildKey(panels, k))
    ensures WithKey(ChildMap(panels)[k], ChildKey(panels, k), v) == WithKey(ChildIds(panels, k), ChildKey(panels, k), v)
  {
    GroupedIsChildIds(panels);
    SortBySorted(ChildIds(panels, k), ChildKey(panels, k));
    SortByStable(ChildIds(panels, k), ChildKey(panels, k), v);
  }

  /** Every id listed under `k` is the id of a panel whose parent is `k`. */
  lemma ChildMapEntries(panels: seq<Panel>, k: string, x: string)
    requires k in ChildMap(panels) && x in ChildMap(panels)[k]
    ensures exists j :: 0 <= j < |panels| && panels[j].id == x && panels[j].parentId == Some(k)
  {
    ChildMapOrder(panels, k, 0);
    assert x in multiset(ChildIds(panels, k));
    ChildIdsMembers(panels, k, x);
  }

  lemma NotAChildId(panels: seq<Panel>, k: string, x: string)
    requires forall j :: 0 <= j < |panels| ==> panels[j].id != x
    ensures multiset(ChildIds(panels, k))[x] == 0
  {
    ChildIdsMembers(panels, k, x);
  }

  lemma {:induction false} ChildIdsOnce(panels: seq<Panel>, k: string, i: nat)
    requires UniqueIds(panels) && i < |panels| && panels[i].parentId == Some(k)
    ensures multiset(ChildIds(panels, k))[panels[i].id] == 1
  {
    var init, p := panels[..|panels| - 1], panels[|panels| - 1];
    var a := ChildIds(init, k);
    ChildIdsSnoc(panels, k);
    if i == |panels| - 1 {
      LastChildOnce(panels, k);
    } else {
      UniquePrefix(panels);
      assert init[i] == panels[i];
      ChildIdsOnce(init, k, i);
      assert p.id != panels[i].id;
      CountUnchanged(a, if p.parentId == Some(k) then [p.id] else [], panels[i].id);
    }
  }

  lemma LastChildOnce(panels: seq<Panel>, k: string)
    requires UniqueIds(panels) && |panels| > 0 && panels[|panels| - 1].parentId == Some(k)
    ensures multiset(ChildIds(panels, k))[panels[|panels| - 1].id] == 1
  {
    var init, p := panels[..|panels| - 1], panels[|panels| - 1];
    forall j | 0 <= j < |init| ensures init[j].id != p.id {
      assert init[j] == panels[j];
    }
    NotAChildId(init, k, p.id);
    ChildIdsSnoc(panels, k);
    assert multiset(ChildIds(panels, k)) == multiset(ChildIds(init, k)) + multiset{p.id};
  }

  lemma CountUnchanged(a: seq<string>, b: seq<string>, x: string)
    requires x !in b
    ensures multiset(a + b)[x] == multiset(a)[x]
  {
    assert multiset(a + b) == multiset(a) + multiset(b);
  }

  lemma UniquePrefix(panels: seq<Panel>)
    requires |panels| > 0 && UniqueIds(panels)
    ensures UniqueIds(panels[..|panels| - 1])
  {
    var init := panels[..|panels| - 1];
    forall a, b | 0 <= a < b < |init| ensures init[a].id != init[b].id {
      assert init[a] == panels[a] && init[b] == panels[b];
    }
  }

  /** With distinct ids, every child panel is listed under its parent exactly once. */
  lemma ChildListedOnce(panels: seq<Panel>, i: nat)
    requires UniqueIds(panels) && i < |panels| && HasParent(panels[i])
    ensures panels[i].parentId.value in ChildMap(panels)
    ensures multiset(ChildMap(panels)[panels[i].parentId.value])[panels[i].id] == 1
  {
    var k := panels[i].parentId.value;
    ChildMapKeys(panels, k);
    ChildMapOrder(panels, k, 0);
    ChildIdsOnce(panels, k, i);
  }

  // ---------------------------------------------------------------------
  // extractLabels and buildDrillMap

  /** The category labels of a chart: metric labels of a KPI chart, products
      of a bar chart, stages of a funnel; none for any other chart type. */
  function ExtractLabels(panel: Panel): (r: seq<string>)
    ensures panel.chartType == "kpi" && panel.data.Records? ==>
      |r| == |panel.data.rows| && forall i :: 0 <= i < |r| ==> r[i] == panel.data.rows[i].metricLabel
    ensures panel.chartType == "bar" && panel.data.Records? ==>
      |r| == |panel.data.rows| && forall i :: 0 <= i < |r| ==> r[i] == panel.data.rows[i].product
    ensures panel.chartType == "funnel" && panel.data.Records? ==>
      |r| == |panel.data.rows| && forall i :: 0 <= i < |r| ==> r[i] == panel.data.rows[i].stage
    ensures panel.chartType != "kpi" && panel.chartType != "bar" && panel.chartType != "funnel" ==> r == []
  {
    match panel.data
    case Records(rows) =>
      if panel.chartType == "kpi" then seq(|rows|, i requires 0 <= i < |rows| => rows[i].metricLabel)
      else if panel.chartType == "bar" then seq(|rows|, i requires 0 <= i < |rows| => rows[i].product)
      else if panel.chartType == "funnel" then seq(|rows|, i requires 0 <= i < |rows| => rows[i].stage)
      else []
    case _ => []
  }

  /** The drill entries after visiting `labels` in order: label i maps to
      child i while i is below the number of children, and a repeated label
      is overwritten by its later occurrence. */
  function DrillEntries(labels: seq<string>, children: seq<string>): map<string, string> {
    if |labels| == 0 then map[]
    else
      var n := |labels| - 1;
      var m := DrillEntries(labels[..n], children);
      if n < |children| then m[labels[n] := children[n]] else m
  }

  /** `buildDrillMap`: nothing when the panel has no children or no labels,
      else the drill entries when there is at least one. */
  function DrillMap(panel: Panel, childMap: map<string, seq<string>>): Option<map<string, string>> {
    var children := if panel.id in childMap then childMap[panel.id] else [];
    var labels := ExtractLabels(panel);
    if |children| == 0 || |labels| == 0 then None
    else
      var m := DrillEntries(labels, children);
      if |m| > 0 then Some(m) else None
  }

  method BuildDrillMap(panel: Panel, childMap: map<string, seq<string>>) returns (r: Option<map<string, string>>)
    ensures r == DrillMap(panel, childMap)
  {
    var children := if panel.id in childMap then childMap[panel.id] else [];
    if |children| == 0 {
      return None;
    }
    var labels := ExtractLabels(panel);
    if |labels| == 0 {
      return None;
    }
    var m := map[];
    for i := 0 to |labels|
      invariant m == DrillEntries(labels[..i], children)
    {
      assert labels[..i + 1][..i] == labels[..i];
      if i < |children| {
        m := m[labels[i] := children[i]];
      }
    }
    assert labels[..|labels|] == labels;
    r := if |m| > 0 then Some(m) else None;
  }

  /** Label `k` was last written at position `j`. */
  predicate LastLabelAt(labels: seq<string>, children: seq<string>, k: string, j: int) {
    && 0 <= j < |labels| && j < |children| && labels[j] == k
    && forall t :: j < t < |labels| && t < |children| ==> labels[t] != k
  }

  /** The keys are the labels that have a child at their position, and each
      maps to the child at the label's last such position. */
  lemma {:induction false} DrillEntriesMeaning(labels: seq<string>, children: seq<string>, k: string)
    ensures k in DrillEntries(labels, children) <==>
      exists i :: 0 <= i < |labels| && i < |children| && labels[i] == k
    ensures k in DrillEntries(labels, children) ==>
      exists j :: LastLabelAt(labels, children, k, j) && DrillEntries(labels, children)[k] == children[j]
  {
    if |labels| > 0 {
      var n := |labels| - 1;
      var init := labels[..n];
      DrillEntriesMeaning(init, children, k);
      if n < |children| && labels[n] == k {
        assert LastLabelAt(labels, children, k, n);
      } else if k in DrillEntries(init, children) {
        var j :| LastLabelAt(init, children, k, j) && DrillEntries(init, children)[k] == children[j];
        assert LastLabelAt(labels, children, k, j);
      } else {
        forall i | 0 <= i < |labels| && i < |children| ensures labels[i] != k {
          if i < n { assert labels[i] == init[i]; }
        }
      }
    }
  }

  /** A drill map exists exactly when the panel has children and labels, and
      every target is one of the panel's children. */
  lemma DrillMapMeaning(panel: Panel, childMap: map<string, seq<string>>)
    ensures DrillMap(panel, childMap).Some? <==>
      panel.id in childMap && |childMap[panel.id]| > 0 && |ExtractLabels(panel)| > 0
    ensures DrillMap(panel, childMap).Some? ==>
      forall k :: k in DrillMap(panel, childMap).value ==> DrillMap(panel, childMap).value[k] in childMap[panel.id]
  {
    var labels := ExtractLabels(panel);
    if panel.id in childMap && |childMap[panel.id]| > 0 && |labels| > 0 {
      var children := childMap[panel.id];
      var m := DrillEntries(labels, children);
      DrillEntriesMeaning(labels, children, labels[0]);
      assert labels[0] in m;
      forall k | k in m ensures m[k] in children {
        DrillEntriesMeaning(labels, children, k);
      }
    }
  }

  /** With distinct labels, label i drills to child i for every i the
      shorter list covers. */
  lemma DistinctLabelsAlign(labels: seq<string>, children: seq<string>, i: nat)
    requires forall a, b :: 0 <= a < b < |labels| ==> labels[a] != labels[b]
    requires i < |labels| && i < |children|
    ensures labels[i] in DrillEntries(labels, children)
    ensures DrillEntries(labels, children)[labels[i]] == children[i]
  {
    DrillEntriesMeaning(labels, children, labels[i]);
    var j :| LastLabelAt(labels, children, labels[i], j) && DrillEntries(labels, children)[labels[i]] == children[j];
    assert j == i;
  }

  // ---------------------------------------------------------------------
  // embedPanels

  /** One panel turned into an embed panel; every other field is kept. */
  function ToEmbed(p: Panel, base: string, childMap: map<string, seq<string>>): Panel {
    p.(chartType := "embed",
       data := Embed(EmbedConfig(base + "/" + p.id, "custom", None, None, DrillMap(p, childMap))))
  }

  /** `embedPanels` over the dataset `panels`. */
  function EmbedPanels(panels: seq<Panel>, isDev: bool): (r: seq<Panel>)
    ensures |r| == |panels|
  {
    var childMap := ChildMap(panels);
    seq(|panels|, i requires 0 <= i < |panels| => ToEmbed(panels[i], ReportsBase(isDev), childMap))
  }

  /** Only `chartType` and `data` change; the URL names the panel under the
      report site, the provider is "custom", and a drill map is present
      exactly when the panel has children and labels. */
  lemma EmbedPanelsShape(panels: seq<Panel>, isDev: bool, i: nat)
    requires i < |panels|
    ensures var e := EmbedPanels(panels, isDev)[i];
      && e == panels[i].(chartType := e.chartType, data := e.data)
      && e.chartType == "embed" && e.data.Embed?
      && e.data.config.url == ReportsBase(isDev) + "/" + panels[i].id
      && e.data.config.provider == "custom"
      && e.data.config.displayLabel.None? && e.data.config.sandbox.None?
      && (e.data.config.drillMap.Some? <==>
            (exists j :: 0 <= j < |panels| && panels[j].parentId == Some(panels[i].id))
            && panels[i].id != "" && |ExtractLabels(panels[i])| > 0)
  {
    var cm := ChildMap(panels);
    var id := panels[i].id;
    DrillMapMeaning(panels[i], cm);
    ChildMapKeys(panels, id);
    if id in cm {
      ChildMapOrder(panels, id, 0);
      GroupedIsChildIds(panels);
    }
  }

  /** Every drill target of an embed panel is a child of that panel. */
  lemma DrillTargetsAreChildren(panels: seq<Panel>, isDev: bool, i: nat, category: string)
    requires i < |panels|
    requires var d := EmbedPanels(panels, isDev)[i].data.config.drillMap; d.Some? && category in d.value
    ensures exists j :: (0 <= j < |panels|
      && panels[j].id == EmbedPanels(panels, isDev)[i].data.config.drillMap.value[category]
      && panels[j].parentId == Some(panels[i].id))
  {
    var cm := ChildMap(panels);
    DrillMapMeaning(panels[i], cm);
    ChildMapEntries(panels, panels[i].id, DrillMap(panels[i], cm).value[category]);
  }
}
