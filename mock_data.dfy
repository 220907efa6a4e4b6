/** The mock dashboard: thirty panels arranged in the navigation grammar
    (one root, five pipeline summaries, a 5 × 3 grid of segment panels and
    nine detail panels) and the links drawn between them. Chart data
    payloads are opaque. */
module MockData {
  import opened Panels

  /** `${step}-${label.toLowerCase()}` */
  function SegmentId(step: string, lower: string): string {
    step + "-" + lower
  }

  /** `${step}-${label.toLowerCase()}-${suffix}` */
  function DetailId(step: string, lower: string, suffix: string): string {
    SegmentId(step, lower) + "-" + suffix
  }

  /** The root panel on level 0. */
  function Root(): Panel {
    Panel("dashboard", "SaaS Dashboard", "kpi", Opaque, Semantic(2, None, 0), None, None, Some("Overview"))
  }

  /** A level-1 summary: one pipeline stage, all segments. */
  function Summary(id: string, title: string, chartType: string, step: int, processLabel: string): Panel {
    Panel(id, title, chartType, Opaque, Semantic(step, None, 1), Some("dashboard"), None, Some(processLabel))
  }

  /** A level-2 or level-3 panel for one segment. */
  function ForSegment(id: string, title: string, chartType: string, step: int, segment: int, level: int,
                      parentId: string, segmentLabel: string, processLabel: string): Panel {
    Panel(id, title, chartType, Opaque, Semantic(step, Some(segment), level), Some(parentId), Some(segmentLabel), Some(processLabel))
  }

  function SummaryPanels(): seq<Panel> {
    [ Summary("marketing", "Marketing Spend", "bar", 0, "Marketing"),
      Summary("leads", "Leads Generated", "funnel", 1, "Leads"),
      Summary("pipeline", "Pipeline Value", "revenue", 2, "Pipeline"),
      Summary("revenue", "Closed Revenue", "kpi", 3, "Revenue"),
      Summary("retention", "Retention & Churn", "churn", 4, "Retention") ]
  }

  /** One row of the segment grid: the five stages for segment `y`. */
  function SegmentRow(y: int, segLabel: string, lower: string): seq<Panel> {
    [ ForSegment(SegmentId("marketing", lower), segLabel + " Marketing", "bar", 0, y, 2, "marketing", segLabel, "Marketing"),
      ForSegment(SegmentId("leads", lower), segLabel + " Leads", "funnel", 1, y, 2, "leads", segLabel, "Leads"),
      ForSegment(SegmentId("pipeline", lower), segLabel + " Pipeline", "revenue", 2, y, 2, "pipeline", segLabel, "Pipeline"),
      ForSegment(SegmentId("revenue", lower), segLabel + " Revenue", "kpi", 3, y, 2, "revenue", segLabel, "Revenue"),
      ForSegment(SegmentId("retention", lower), segLabel + " Retention", "churn", 4, y, 2, "retention", segLabel, "Retention") ]
  }

  /** `segments.flatMap(...)` over Startup, SMB and Enterprise. */
  function SegmentPanels(): seq<Panel> {
    SegmentRow(0, "Startup", "startup") + SegmentRow(1, "SMB", "smb") + SegmentRow(2, "Enterprise", "enterprise")
  }

  /** One `segments.map(...)` block of detail panels: stage `step` drilled
      into for each segment, the parent being that segment's stage panel. */
  function DetailBlock(stepName: string, step: int, suffix: string, what: string, chartType: string,
                       processLabel: string): seq<Panel> {
    [ ForSegment(DetailId(stepName, "startup", suffix), "Startup " + what, chartType, step, 0, 3,
                 SegmentId(stepName, "startup"), "Startup", processLabel),
      ForSegment(DetailId(stepName, "smb", suffix), "SMB " + what, chartType, step, 1, 3,
                 SegmentId(stepName, "smb"), "SMB", processLabel),
      ForSegment(DetailId(stepName, "enterprise", suffix), "Enterprise " + what, chartType, step, 2, 3,
                 SegmentId(stepName, "enterprise"), "Enterprise", processLabel) ]
  }

  function DetailPanels(): seq<Panel> {
    DetailBlock("leads", 1, "source", "Leads by Source", "bar", "Leads")
    + DetailBlock("pipeline", 2, "stage", "Pipeline by Stage", "funnel", "Pipeline")
    + DetailBlock("revenue", 3, "account", "Revenue by Account", "bar", "Revenue")
  }

  function DefaultPanels(): seq<Panel> {
    [Root()] + SummaryPanels() + SegmentPanels() + DetailPanels()
  }

  // ---------------------------------------------------------------------
  // Links

  datatype LinkType = Causal | Hierarchy | SegmentLink

  datatype Link = Link(from: string, to: string, kind: LinkType)

  /** Level 0 to level 1. */
  function SummaryHierarchy(): seq<Link> {
    [ Link("dashboard", "marketing", Hierarchy),
      Link("dashboard", "leads", Hierarchy),
      Link("dashboard", "pipeline", Hierarchy),
      Link("dashboard", "revenue", Hierarchy),
      Link("dashboard", "retention", Hierarchy) ]
  }

  /** The causal flow along the summary row. */
  function SummaryCausal(): seq<Link> {
    [ Link("marketing", "leads", Causal),
      Link("leads", "pipeline", Causal),
      Link("pipeline", "revenue", Causal),
      Link("revenue", "retention", Causal) ]
  }

  function CausalRow(lower: string): seq<Link> {
    [ Link(SegmentId("marketing", lower), SegmentId("leads", lower), Causal),
      Link(SegmentId("leads", lower), SegmentId("pipeline", lower), Causal),
      Link(SegmentId("pipeline", lower), SegmentId("revenue", lower), Causal),
      Link(SegmentId("revenue", lower), SegmentId("retention", lower), Causal) ]
  }

  function HierarchyRow(lower: string): seq<Link> {
    [ Link("marketing", SegmentId("marketing", lower), Hierarchy),
      Link("leads", SegmentId("leads", lower), Hierarchy),
      Link("pipeline", SegmentId("pipeline", lower), Hierarchy),
      Link("revenue", SegmentId("revenue", lower), Hierarchy),
      Link("retention", SegmentId("retention", lower), Hierarchy) ]
  }

  function DetailHierarchyBlock(step: string, suffix: string): seq<Link> {
    [ Link(SegmentId(step, "startup"), DetailId(step, "startup", suffix), Hierarchy),
      Link(SegmentId(step, "smb"), DetailId(step, "smb", suffix), Hierarchy),
      Link(SegmentId(step, "enterprise"), DetailId(step, "enterprise", suffix), Hierarchy) ]
  }

  /** The two vertical links at one pipeline stage of the segment grid. */
  function SegmentRungs(step: string): seq<Link> {
    [ Link(SegmentId(step, "startup"), SegmentId(step, "smb"), SegmentLink),
      Link(SegmentId(step, "smb"), SegmentId(step, "enterprise"), SegmentLink) ]
  }

  function SegmentCausal(): seq<Link> {
    CausalRow("startup") + CausalRow("smb") + CausalRow("enterprise")
  }

  function SegmentHierarchy(): seq<Link> {
    HierarchyRow("startup") + HierarchyRow("smb") + HierarchyRow("enterprise")
  }

  function DetailHierarchy(): seq<Link> {
    DetailHierarchyBlock("leads", "source") + DetailHierarchyBlock("pipeline", "stage")
    + DetailHierarchyBlock("revenue", "account")
  }

  function GridRungs(): seq<Link> {
    SegmentRungs("marketing") + SegmentRungs("leads") + SegmentRungs("pipeline")
    + SegmentRungs("revenue") + SegmentRungs("retention")
  }

  /** The level-3 vertical links, written out in the source. */
  function DetailRungs(): seq<Link> {
    [ Link("leads-startup-source", "leads-smb-source", SegmentLink),
      Link("leads-smb-source", "leads-enterprise-source", SegmentLink),
      Link("pipeline-startup-stage", "pipeline-smb-stage", SegmentLink),
      Link("pipeline-smb-stage", "pipeline-enterprise-stage", SegmentLink),
      Link("revenue-startup-account", "revenue-smb-account", SegmentLink),
      Link("revenue-smb-account", "revenue-enterprise-account", SegmentLink) ]
  }

  function CausalLinks(): seq<Link> {
    SummaryHierarchy() + SummaryCausal() + SegmentCausal() + SegmentHierarchy() + DetailHierarchy()
    + GridRungs() + DetailRungs()
  }

  function CountKind(links: seq<Link>, kind: LinkType): nat {
    if |links| == 0 then 0 else (if links[0].kind == kind then 1 else 0) + CountKind(links[1..], kind)
  }

  /** The (parent, child) pairs of a panel list, in list order. */
  function ParentEdges(panels: seq<Panel>): seq<(string, string)> {
    if |panels| == 0 then [] else
    var head := if panels[0].parentId.Some? then [(panels[0].parentId.value, panels[0].id)] else [];
    head + ParentEdges(panels[1..])
  }

  /** The (from, to) pairs of the hierarchy links, in list order. */
  function HierarchyEdges(links: seq<Link>): seq<(string, string)> {
    if |links| == 0 then [] else
    var head := if links[0].kind == Hierarchy then [(links[0].from, links[0].to)] else [];
    head + HierarchyEdges(links[1..])
  }

  // ---------------------------------------------------------------------
  // Evaluating the fixture

  /** The thirty ids, in panel order. */
  const IDS: seq<string> := [
    "dashboard", "marketing", "leads", "pipeline", "revenue", "retention",
    "marketing-startup", "leads-startup", "pipeline-startup", "revenue-startup", "retention-startup",
    "marketing-smb", "leads-smb", "pipeline-smb", "revenue-smb", "retention-smb",
    "marketing-enterprise", "leads-enterprise", "pipeline-enterprise", "revenue-enterprise", "retention-enterprise",
    "leads-startup-source", "leads-smb-source", "leads-enterprise-source",
    "pipeline-startup-stage", "pipeline-smb-stage", "pipeline-enterprise-stage",
    "revenue-startup-account", "revenue-smb-account", "revenue-enterprise-account"]

  lemma IdsDistinctFrom0()
    ensures forall i, j :: 0 <= i < 5 && i < j < |IDS| ==> IDS[i] != IDS[j]
  {
  }

  lemma IdsDistinctFrom5()
    ensures forall i, j :: 5 <= i < 10 && i < j < |IDS| ==> IDS[i] != IDS[j]
  {
  }

  lemma IdsDistinctFrom10()
    ensures forall i, j :: 10 <= i < 15 && i < j < |IDS| ==> IDS[i] != IDS[j]
  {
  }

  lemma IdsDistinctFrom15()
    ensures forall i, j :: 15 <= i < 20 && i < j < |IDS| ==> IDS[i] != IDS[j]
  {
  }

  lemma IdsDistinctFrom20()
    ensures forall i, j :: 20 <= i < 25 && i < j < |IDS| ==> IDS[i] != IDS[j]
  {
  }

  lemma IdsDistinctFrom25()
    ensures forall i, j :: 25 <= i < j < |IDS| ==> IDS[i] != IDS[j]
  {
  }

  lemma IdsDistinct()
    ensures forall i, j :: 0 <= i < j < |IDS| ==> IDS[i] != IDS[j]
  {
    IdsDistinctFrom0();
    IdsDistinctFrom5();
    IdsDistinctFrom10();
    IdsDistinctFrom15();
    IdsDistinctFrom20();
    IdsDistinctFrom25();
  }

  /** The template ids of the segment grid, evaluated row by row. */
  lemma StartupIds()
    ensures SegmentId("marketing", "startup") == IDS[6] && SegmentId("leads", "startup") == IDS[7]
    ensures SegmentId("pipeline", "startup") == IDS[8] && SegmentId("revenue", "startup") == IDS[9]
    ensures SegmentId("retention", "startup") == IDS[10]
  {
  }

  lemma SmbIds()
    ensures SegmentId("marketing", "smb") == IDS[11] && SegmentId("leads", "smb") == IDS[12]
    ensures SegmentId("pipeline", "smb") == IDS[13] && SegmentId("revenue", "smb") == IDS[14]
    ensures SegmentId("retention", "smb") == IDS[15]
  {
  }

  lemma EnterpriseIds()
    ensures SegmentId("marketing", "enterprise") == IDS[16] && SegmentId("leads", "enterprise") == IDS[17]
    ensures SegmentId("pipeline", "enterprise") == IDS[18] && SegmentId("revenue", "enterprise") == IDS[19]
    ensures SegmentId("retention", "enterprise") == IDS[20]
  {
  }

  /** The template ids of the detail panels, evaluated block by block. */
  lemma LeadsDetailIds()
    ensures DetailId("leads", "startup", "source") == IDS[21] && DetailId("leads", "smb", "source") == IDS[22]
    ensures DetailId("leads", "enterprise", "source") == IDS[23]
  {
  }

  lemma PipelineDetailIds()
    ensures DetailId("pipeline", "startup", "stage") == IDS[24] && DetailId("pipeline", "smb", "stage") == IDS[25]
    ensures DetailId("pipeline", "enterprise", "stage") == IDS[26]
  {
  }

  lemma RevenueDetailIds()
    ensures DetailId("revenue", "startup", "account") == IDS[27] && DetailId("revenue", "smb", "account") == IDS[28]
    ensures DetailId("revenue", "enterprise", "account") == IDS[29]
  {
  }

  /** The panel list, block by block. */
  lemma Blocks()
    ensures |DefaultPanels()| == 30 && DefaultPanels()[0] == Root()
    ensures forall k :: 1 <= k < 6 ==> DefaultPanels()[k] == SummaryPanels()[k - 1]
    ensures forall k :: 6 <= k < 11 ==> DefaultPanels()[k] == SegmentRow(0, "Startup", "startup")[k - 6]
    ensures forall k :: 11 <= k < 16 ==> DefaultPanels()[k] == SegmentRow(1, "SMB", "smb")[k - 11]
    ensures forall k :: 16 <= k < 21 ==> DefaultPanels()[k] == SegmentRow(2, "Enterprise", "enterprise")[k - 16]
    ensures forall k :: 21 <= k < 24 ==>
      DefaultPanels()[k] == DetailBlock("leads", 1, "source", "Leads by Source", "bar", "Leads")[k - 21]
    ensures forall k :: 24 <= k < 27 ==>
      DefaultPanels()[k] == DetailBlock("pipeline", 2, "stage", "Pipeline by Stage", "funnel", "Pipeline")[k - 24]
    ensures forall k :: 27 <= k < 30 ==>
      DefaultPanels()[k] == DetailBlock("revenue", 3, "account", "Revenue by Account", "bar", "Revenue")[k - 27]
  {
  }

  lemma IdsHead()
    ensures forall k :: 0 <= k < 6 ==> DefaultPanels()[k].id == IDS[k]
  {
    Blocks();
  }

  lemma IdsGrid()
    ensures forall k :: 6 <= k < 21 ==> DefaultPanels()[k].id == IDS[k]
  {
    Blocks();
    StartupIds();
    SmbIds();
    EnterpriseIds();
  }

  lemma IdsDetail()
    ensures forall k :: 21 <= k < 30 ==> DefaultPanels()[k].id == IDS[k]
  {
    Blocks();
    LeadsDetailIds();
    PipelineDetailIds();
    RevenueDetailIds();
  }

  /** Panel k carries the k-th listed id. */
  lemma IdsAt()
    ensures |DefaultPanels()| == |IDS|
    ensures forall k :: 0 <= k < |IDS| ==> DefaultPanels()[k].id == IDS[k]
  {
    Blocks();
    IdsHead();
    IdsGrid();
    IdsDetail();
  }

  /** Thirty panels, identified by thirty distinct ids. */
  lemma DefaultPanelsUnique()
    ensures |DefaultPanels()| == 30
    ensures Ids(DefaultPanels()) == IDS
    ensures UniqueIds(DefaultPanels())
  {
    IdsAt();
    IdsDistinct();
    ListedIds(DefaultPanels(), IDS);
  }

  /** A panel list whose ids are a listed sequence of distinct ids. */
  lemma ListedIds(ps: seq<Panel>, ids: seq<string>)
    requires |ps| == |ids| && forall k :: 0 <= k < |ps| ==> ps[k].id == ids[k]
    requires forall i, j :: 0 <= i < j < |ids| ==> ids[i] != ids[j]
    ensures Ids(ps) == ids && UniqueIds(ps)
  {
  }

  /** The row of the segment grid, or the block of detail panels, panel k
      falls in. */
  function BlockOf(k: int): int {
    if k < 11 then 0 else if k < 16 then 1 else if k < 21 then 2
    else if k < 24 then 0 else if k < 27 then 1 else 2
  }

  /** The semantic address of panel k. */
  function ShapeAt(k: int): Semantic {
    if k == 0 then Semantic(2, None, 0)
    else if k < 6 then Semantic(k - 1, None, 1)
    else if k < 21 then Semantic(k - 6 - 5 * BlockOf(k), Some(BlockOf(k)), 2)
    else Semantic(1 + BlockOf(k), Some(k - 21 - 3 * BlockOf(k)), 3)
  }

  /** Where panel k's parent sits in the list. */
  function ParentIndex(k: int): int {
    if k < 6 then 0
    else if k < 21 then 1 + (k - 6 - 5 * BlockOf(k))
    else 7 + 5 * (k - 21 - 3 * BlockOf(k)) + BlockOf(k)
  }

  lemma ShapeHead()
    ensures forall k :: 0 <= k < 6 ==> DefaultPanels()[k].semantic == ShapeAt(k)
    ensures DefaultPanels()[0].parentId == None
    ensures forall k :: 1 <= k < 6 ==> DefaultPanels()[k].parentId == Some(IDS[ParentIndex(k)])
  {
    Blocks();
  }

  lemma ShapeGrid()
    ensures forall k :: 6 <= k < 21 ==>
      DefaultPanels()[k].semantic == ShapeAt(k) && DefaultPanels()[k].parentId == Some(IDS[ParentIndex(k)])
  {
    Blocks();
  }

  lemma ShapeDetail()
    ensures forall k :: 21 <= k < 30 ==>
      DefaultPanels()[k].semantic == ShapeAt(k) && DefaultPanels()[k].parentId == Some(IDS[ParentIndex(k)])
  {
    Blocks();
    StartupIds();
    SmbIds();
    EnterpriseIds();
  }

  /** A thirty-panel list laid out as the fixture is: addresses and parents
      by position. */
  predicate Shaped(ps: seq<Panel>) {
    && |ps| == 30
    && (forall k :: 0 <= k < 30 ==> ps[k].semantic == ShapeAt(k))
    && (forall k :: 0 <= k < 30 ==> ps[k].parentId == (if k == 0 then None else Some(ps[ParentIndex(k)].id)))
  }

  lemma Shape()
    ensures Shaped(DefaultPanels())
  {
    IdsAt();
    ShapeHead();
    ShapeGrid();
    ShapeDetail();
  }

  lemma ShapedRoot(ps: seq<Panel>)
    requires Shaped(ps)
    ensures FindRoot(ps) == Some(0) && ps[0].semantic.detailLevel == 0
    ensures forall k :: 0 <= k < |ps| ==> (ps[k].parentId.None? <==> k == 0)
    ensures forall k :: 0 <= k < |ps| ==> (ps[k].semantic.detailLevel == 0 <==> k == 0)
  {
  }

  lemma ShapedParents(ps: seq<Panel>)
    requires Shaped(ps)
    ensures forall k :: 0 <= k < |ps| && ps[k].parentId.Some? ==>
      exists j ::
        && 0 <= j < |ps| && ps[j].id == ps[k].parentId.value
        && ps[j].semantic.detailLevel == ps[k].semantic.detailLevel - 1
  {
    forall k | 0 <= k < |ps| && ps[k].parentId.Some?
      ensures exists j ::
        && 0 <= j < |ps| && ps[j].id == ps[k].parentId.value
        && ps[j].semantic.detailLevel == ps[k].semantic.detailLevel - 1
    {
      var j := ParentIndex(k);
      assert ps[j].semantic.detailLevel == ps[k].semantic.detailLevel - 1;
    }
  }

  lemma ShapedGrid(ps: seq<Panel>)
    requires Shaped(ps)
    ensures forall k :: 0 <= k < |ps| && ps[k].semantic.detailLevel == 2 ==>
      var a := ps[k].semantic;
      0 <= a.processStep < 5 && a.segment.Some? && 0 <= a.segment.value < 3
    ensures forall s, g :: 0 <= s < 5 && 0 <= g < 3 ==>
      exists k :: 0 <= k < |ps| && ps[k].semantic == Semantic(s, Some(g), 2)
  {
    forall k | 0 <= k < |ps| && ps[k].semantic.detailLevel == 2
      ensures 0 <= ps[k].semantic.processStep < 5 && ps[k].semantic.segment.Some? && 0 <= ps[k].semantic.segment.value < 3
    {
      assert ps[k].semantic == ShapeAt(k);
      assert 6 <= k < 21;
    }
    forall s, g | 0 <= s < 5 && 0 <= g < 3
      ensures exists k :: 0 <= k < |ps| && ps[k].semantic == Semantic(s, Some(g), 2)
    {
      var k := 6 + 5 * g + s;
      assert 6 <= k < 21 && BlockOf(k) == g;
      assert ps[k].semantic == ShapeAt(k) == Semantic(s, Some(g), 2);
      assert 0 <= k < |ps| && ps[k].semantic == Semantic(s, Some(g), 2);
    }
    assert forall s, g :: 0 <= s < 5 && 0 <= g < 3 ==>
      exists k :: 0 <= k < |ps| && ps[k].semantic == Semantic(s, Some(g), 2);
  }

  lemma ShapedDetail(ps: seq<Panel>)
    requires Shaped(ps)
    ensures forall k :: 0 <= k < |ps| && ps[k].semantic.detailLevel == 3 ==>
      var a := ps[k].semantic;
      1 <= a.processStep <= 3 && a.segment.Some? && 0 <= a.segment.value < 3
    ensures forall s, g :: 1 <= s <= 3 && 0 <= g < 3 ==>
      exists k :: 0 <= k < |ps| && ps[k].semantic == Semantic(s, Some(g), 3)
  {
    forall k | 0 <= k < |ps| && ps[k].semantic.detailLevel == 3
      ensures 1 <= ps[k].semantic.processStep <= 3 && ps[k].semantic.segment.Some? && 0 <= ps[k].semantic.segment.value < 3
    {
      assert ps[k].semantic == ShapeAt(k);
      assert 21 <= k < 30;
    }
    forall s, g | 1 <= s <= 3 && 0 <= g < 3
      ensures exists k :: 0 <= k < |ps| && ps[k].semantic == Semantic(s, Some(g), 3)
    {
      var k := 21 + 3 * (s - 1) + g;
      assert 21 <= k < 30 && BlockOf(k) == s - 1;
      assert ps[k].semantic == ShapeAt(k) == Semantic(s, Some(g), 3);
      assert 0 <= k < |ps| && ps[k].semantic == Semantic(s, Some(g), 3);
    }
    assert forall s, g :: 1 <= s <= 3 && 0 <= g < 3 ==>
      exists k :: 0 <= k < |ps| && ps[k].semantic == Semantic(s, Some(g), 3);
  }

  lemma ShapedAddresses(ps: seq<Panel>)
    requires Shaped(ps)
    ensures forall k, k' :: 0 <= k < k' < |ps| && ps[k].semantic.detailLevel >= 2 ==> ps[k].semantic != ps[k'].semantic
  {
  }

  // ---------------------------------------------------------------------
  // Properties of the panel tree

  /** Exactly one panel lacks a parent: the dashboard, the only panel on
      level 0, which is therefore the root `setPanels` focuses. */
  lemma OneRoot()
    ensures FindRoot(DefaultPanels()) == Some(0)
    ensures DefaultPanels()[0].id == "dashboard" && DefaultPanels()[0].semantic.detailLevel == 0
    ensures forall k :: 0 <= k < |DefaultPanels()| ==> (DefaultPanels()[k].parentId.None? <==> k == 0)
    ensures forall k :: 0 <= k < |DefaultPanels()| ==> (DefaultPanels()[k].semantic.detailLevel == 0 <==> k == 0)
  {
    Shape();
    ShapedRoot(DefaultPanels());
    IdsHead();
  }

  /** Every parent id names a panel exactly one level up. */
  lemma ParentsOneLevelUp()
    ensures forall k :: 0 <= k < |DefaultPanels()| && DefaultPanels()[k].parentId.Some? ==>
      exists j ::
        && 0 <= j < |DefaultPanels()| && DefaultPanels()[j].id == DefaultPanels()[k].parentId.value
        && DefaultPanels()[j].semantic.detailLevel == DefaultPanels()[k].semantic.detailLevel - 1
  {
    Shape();
    ShapedParents(DefaultPanels());
  }

  /** The level-2 panels are one per (stage 0..4, segment 0..2). */
  lemma GridCoveredOnce()
    ensures forall k :: 0 <= k < |DefaultPanels()| && DefaultPanels()[k].semantic.detailLevel == 2 ==>
      var a := DefaultPanels()[k].semantic;
      0 <= a.processStep < 5 && a.segment.Some? && 0 <= a.segment.value < 3
    ensures forall s, g :: 0 <= s < 5 && 0 <= g < 3 ==>
      exists k :: 0 <= k < |DefaultPanels()| && DefaultPanels()[k].semantic == Semantic(s, Some(g), 2)
  {
    Shape();
    ShapedGrid(DefaultPanels());
  }

  /** Level-3 panels exist only for the leads, pipeline and revenue stages,
      one per segment each. */
  lemma DetailCoveredOnce()
    ensures forall k :: 0 <= k < |DefaultPanels()| && DefaultPanels()[k].semantic.detailLevel == 3 ==>
      var a := DefaultPanels()[k].semantic;
      1 <= a.processStep <= 3 && a.segment.Some? && 0 <= a.segment.value < 3
    ensures forall s, g :: 1 <= s <= 3 && 0 <= g < 3 ==>
      exists k :: 0 <= k < |DefaultPanels()| && DefaultPanels()[k].semantic == Semantic(s, Some(g), 3)
  {
    Shape();
    ShapedDetail(DefaultPanels());
  }

  /** No two panels below level 1 share a semantic address, so each grid
      and detail cell holds one panel. */
  lemma AddressesDistinct()
    ensures forall k, k' :: 0 <= k < k' < |DefaultPanels()| && DefaultPanels()[k].semantic.detailLevel >= 2 ==>
      DefaultPanels()[k].semantic != DefaultPanels()[k'].semantic
  {
    Shape();
    ShapedAddresses(DefaultPanels());
  }

  // ---------------------------------------------------------------------
  // Properties of the links

  lemma {:induction false} CountKindAppend(a: seq<Link>, b: seq<Link>, kind: LinkType)
    ensures CountKind(a + b, kind) == CountKind(a, kind) + CountKind(b, kind)
    decreases |a|
  {
    if |a| > 0 {
      assert (a + b)[0] == a[0] && (a + b)[1..] == a[1..] + b;
      CountKindAppend(a[1..], b, kind);
    } else {
      assert a + b == b;
    }
  }

  lemma {:induction false} HierarchyEdgesAppend(a: seq<Link>, b: seq<Link>)
    ensures HierarchyEdges(a + b) == HierarchyEdges(a) + HierarchyEdges(b)
    decreases |a|
  {
    if |a| > 0 {
      assert (a + b)[0] == a[0] && (a + b)[1..] == a[1..] + b;
      HierarchyEdgesAppend(a[1..], b);
    } else {
      assert a + b == b;
    }
  }

  lemma {:induction false} ParentEdgesAppend(a: seq<Panel>, b: seq<Panel>)
    ensures ParentEdges(a + b) == ParentEdges(a) + ParentEdges(b)
    decreases |a|
  {
    if |a| > 0 {
      assert (a + b)[0] == a[0] && (a + b)[1..] == a[1..] + b;
      ParentEdgesAppend(a[1..], b);
    } else {
      assert a + b == b;
    }
  }

  /** Links of one kind only: the count is their number. */
  lemma {:induction false} CountUniform(links: seq<Link>, kind: LinkType)
    requires forall i :: 0 <= i < |links| ==> links[i].kind == kind
    ensures CountKind(links, kind) == |links|
    ensures forall other :: other != kind ==> CountKind(links, other) == 0
    decreases |links|
  {
    if |links| > 0 {
      CountUniform(links[1..], kind);
    }
  }

  /** 61 links: 16 causal, 29 hierarchy and 16 segment links. */
  lemma LinkCounts()
    ensures |CausalLinks()| == 61
    ensures CountKind(CausalLinks(), Causal) == 16
    ensures CountKind(CausalLinks(), Hierarchy) == 29
    ensures CountKind(CausalLinks(), SegmentLink) == 16
  {
    var c := SummaryCausal() + SegmentCausal();
    var h := SummaryHierarchy() + SegmentHierarchy() + DetailHierarchy();
    var r := GridRungs() + DetailRungs();
    CountUniform(c, Causal);
    CountUniform(h, Hierarchy);
    CountUniform(r, SegmentLink);
    var a, b, d := SummaryHierarchy(), SummaryCausal(), SegmentCausal();
    var e, f := SegmentHierarchy(), DetailHierarchy();
    forall kind
      ensures CountKind(CausalLinks(), kind) == CountKind(c, kind) + CountKind(h, kind) + CountKind(r, kind)
    {
      CountKindAppend(a + b + d + e + f + GridRungs(), DetailRungs(), kind);
      CountKindAppend(a + b + d + e + f, GridRungs(), kind);
      CountKindAppend(a + b + d + e, f, kind);
      CountKindAppend(a + b + d, e, kind);
      CountKindAppend(a + b, d, kind);
      CountKindAppend(a, b, kind);
      CountKindAppend(b, d, kind);
      CountKindAppend(a + e, f, kind);
      CountKindAppend(a, e, kind);
      CountKindAppend(GridRungs(), DetailRungs(), kind);
    }
  }

  /** Hierarchy links matching a panel list pairwise give its parent edges. */
  lemma {:induction false} EdgesMatch(links: seq<Link>, panels: seq<Panel>)
    requires |links| == |panels|
    requires forall i :: 0 <= i < |links| ==>
      links[i].kind == Hierarchy && panels[i].parentId == Some(links[i].from) && panels[i].id == links[i].to
    ensures HierarchyEdges(links) == ParentEdges(panels)
    decreases |links|
  {
    if |links| > 0 {
      EdgesMatch(links[1..], panels[1..]);
    }
  }

  /** Links of other kinds contribute no hierarchy edge. */
  lemma {:induction false} NoHierarchyEdges(links: seq<Link>)
    requires forall i :: 0 <= i < |links| ==> links[i].kind != Hierarchy
    ensures HierarchyEdges(links) == []
    decreases |links|
  {
    if |links| > 0 {
      NoHierarchyEdges(links[1..]);
    }
  }

  lemma SegmentHierarchyMatches()
    ensures HierarchyEdges(SegmentHierarchy()) == ParentEdges(SegmentPanels())
  {
    var h0, h1, h2 := HierarchyRow("startup"), HierarchyRow("smb"), HierarchyRow("enterprise");
    var p0, p1, p2 := SegmentRow(0, "Startup", "startup"), SegmentRow(1, "SMB", "smb"), SegmentRow(2, "Enterprise", "enterprise");
    EdgesMatch(h0, p0);
    EdgesMatch(h1, p1);
    EdgesMatch(h2, p2);
    HierarchyEdgesAppend(h0 + h1, h2);
    HierarchyEdgesAppend(h0, h1);
    ParentEdgesAppend(p0 + p1, p2);
    ParentEdgesAppend(p0, p1);
  }

  lemma DetailHierarchyMatches()
    ensures HierarchyEdges(DetailHierarchy()) == ParentEdges(DetailPanels())
  {
    var h0, h1, h2 := DetailHierarchyBlock("leads", "source"), DetailHierarchyBlock("pipeline", "stage"),
      DetailHierarchyBlock("revenue", "account");
    var p0 := DetailBlock("leads", 1, "source", "Leads by Source", "bar", "Leads");
    var p1 := DetailBlock("pipeline", 2, "stage", "Pipeline by Stage", "funnel", "Pipeline");
    var p2 := DetailBlock("revenue", 3, "account", "Revenue by Account", "bar", "Revenue");
    EdgesMatch(h0, p0);
    EdgesMatch(h1, p1);
    EdgesMatch(h2, p2);
    HierarchyEdgesAppend(h0 + h1, h2);
    HierarchyEdgesAppend(h0, h1);
    ParentEdgesAppend(p0 + p1, p2);
    ParentEdgesAppend(p0, p1);
  }

  lemma HierarchyEdges7(a: seq<Link>, b: seq<Link>, d: seq<Link>, e: seq<Link>, f: seq<Link>, g: seq<Link>, r: seq<Link>)
    requires HierarchyEdges(b) == [] && HierarchyEdges(d) == [] && HierarchyEdges(g) == [] && HierarchyEdges(r) == []
    ensures HierarchyEdges(a + b + d + e + f + g + r) == HierarchyEdges(a) + HierarchyEdges(e) + HierarchyEdges(f)
  {
    HierarchyEdgesAppend(a + b + d + e + f + g, r);
    HierarchyEdgesAppend(a + b + d + e + f, g);
    HierarchyEdgesAppend(a + b + d + e, f);
    HierarchyEdgesAppend(a + b + d, e);
    HierarchyEdgesAppend(a + b, d);
    HierarchyEdgesAppend(a, b);
  }

  lemma CausalNoEdges()
    ensures HierarchyEdges(SummaryCausal()) == [] && HierarchyEdges(SegmentCausal()) == []
  {
    NoHierarchyEdges(SummaryCausal());
    NoHierarchyEdges(SegmentCausal());
  }

  lemma RungsNoEdges()
    ensures HierarchyEdges(GridRungs()) == [] && HierarchyEdges(DetailRungs()) == []
  {
    NoHierarchyEdges(GridRungs());
    NoHierarchyEdges(DetailRungs());
  }

  lemma LinkHierarchyEdges()
    ensures HierarchyEdges(CausalLinks())
      == HierarchyEdges(SummaryHierarchy()) + HierarchyEdges(SegmentHierarchy()) + HierarchyEdges(DetailHierarchy())
  {
    CausalNoEdges();
    RungsNoEdges();
    HierarchyEdges7(SummaryHierarchy(), SummaryCausal(), SegmentCausal(), SegmentHierarchy(), DetailHierarchy(),
                    GridRungs(), DetailRungs());
  }

  lemma SummaryHierarchyMatches()
    ensures HierarchyEdges(SummaryHierarchy()) == ParentEdges(SummaryPanels())
  {
    EdgesMatch(SummaryHierarchy(), SummaryPanels());
  }

  lemma ParentEdges4(r: seq<Panel>, a: seq<Panel>, b: seq<Panel>, c: seq<Panel>)
    requires ParentEdges(r) == []
    ensures ParentEdges(r + a + b + c) == ParentEdges(a) + ParentEdges(b) + ParentEdges(c)
  {
    ParentEdgesAppend(r + a + b, c);
    ParentEdgesAppend(r + a, b);
    ParentEdgesAppend(r, a);
  }

  lemma PanelParentEdges()
    ensures ParentEdges(DefaultPanels())
      == ParentEdges(SummaryPanels()) + ParentEdges(SegmentPanels()) + ParentEdges(DetailPanels())
  {
    assert ParentEdges([Root()]) == [];
    ParentEdges4([Root()], SummaryPanels(), SegmentPanels(), DetailPanels());
  }

  /** The hierarchy links are exactly the parent-to-child edges of the
      panel tree, in panel order. */
  lemma HierarchyIsParentEdges()
    ensures HierarchyEdges(CausalLinks()) == ParentEdges(DefaultPanels())
  {
    LinkHierarchyEdges();
    PanelParentEdges();
    SummaryHierarchyMatches();
    SegmentHierarchyMatches();
    DetailHierarchyMatches();
  }

  /** Both ends of every link in `links` are listed ids. */
  predicate EndsListed(links: seq<Link>) {
    forall l :: l in links ==> l.from in IDS && l.to in IDS
  }

  lemma SummaryEnds()
    ensures EndsListed(SummaryHierarchy()) && EndsListed(SummaryCausal())
  {
  }

  lemma EndsAppend(a: seq<Link>, b: seq<Link>)
    requires EndsListed(a) && EndsListed(b)
    ensures EndsListed(a + b)
  {
  }

  lemma CausalRowEnds(lower: string, start: nat)
    requires start + 5 <= |IDS|
    requires SegmentId("marketing", lower) == IDS[start] && SegmentId("leads", lower) == IDS[start + 1]
    requires SegmentId("pipeline", lower) == IDS[start + 2] && SegmentId("revenue", lower) == IDS[start + 3]
    requires SegmentId("retention", lower) == IDS[start + 4]
    ensures EndsListed(CausalRow(lower))
  {
  }

  lemma HierarchyRowEnds(lower: string, start: nat)
    requires start + 5 <= |IDS|
    requires SegmentId("marketing", lower) == IDS[start] && SegmentId("leads", lower) == IDS[start + 1]
    requires SegmentId("pipeline", lower) == IDS[start + 2] && SegmentId("revenue", lower) == IDS[start + 3]
    requires SegmentId("retention", lower) == IDS[start + 4]
    ensures EndsListed(HierarchyRow(lower))
  {
  }

  lemma RowsEnds()
    ensures EndsListed(CausalRow("startup")) && EndsListed(HierarchyRow("startup"))
    ensures EndsListed(CausalRow("smb")) && EndsListed(HierarchyRow("smb"))
    ensures EndsListed(CausalRow("enterprise")) && EndsListed(HierarchyRow("enterprise"))
  {
    StartupIds();
    SmbIds();
    EnterpriseIds();
    CausalRowEnds("startup", 6);
    HierarchyRowEnds("startup", 6);
    CausalRowEnds("smb", 11);
    HierarchyRowEnds("smb", 11);
    CausalRowEnds("enterprise", 16);
    HierarchyRowEnds("enterprise", 16);
  }

  lemma SegmentEnds()
    ensures EndsListed(SegmentCausal()) && EndsListed(SegmentHierarchy())
  {
    RowsEnds();
    EndsAppend(CausalRow("startup"), CausalRow("smb"));
    EndsAppend(CausalRow("startup") + CausalRow("smb"), CausalRow("enterprise"));
    EndsAppend(HierarchyRow("startup"), HierarchyRow("smb"));
    EndsAppend(HierarchyRow("startup") + HierarchyRow("smb"), HierarchyRow("enterprise"));
  }

  lemma StageRungEnds(step: string, start: nat)
    requires start + 10 < |IDS|
    requires SegmentId(step, "startup") == IDS[start] && SegmentId(step, "smb") == IDS[start + 5]
    requires SegmentId(step, "enterprise") == IDS[start + 10]
    ensures EndsListed(SegmentRungs(step))
  {
  }

  lemma StagesEnds()
    ensures EndsListed(SegmentRungs("marketing")) && EndsListed(SegmentRungs("leads"))
    ensures EndsListed(SegmentRungs("pipeline")) && EndsListed(SegmentRungs("revenue"))
    ensures EndsListed(SegmentRungs("retention"))
  {
    StartupIds();
    SmbIds();
    EnterpriseIds();
    StageRungEnds("marketing", 6);
    StageRungEnds("leads", 7);
    StageRungEnds("pipeline", 8);
    StageRungEnds("revenue", 9);
    StageRungEnds("retention", 10);
  }

  lemma EndsAppend5(m: seq<Link>, l: seq<Link>, p: seq<Link>, v: seq<Link>, t: seq<Link>)
    requires EndsListed(m) && EndsListed(l) && EndsListed(p) && EndsListed(v) && EndsListed(t)
    ensures EndsListed(m + l + p + v + t)
  {
    EndsAppend(m, l);
    EndsAppend(m + l, p);
    EndsAppend(m + l + p, v);
    EndsAppend(m + l + p + v, t);
  }

  lemma RungEnds()
    ensures EndsListed(GridRungs())
  {
    StagesEnds();
    EndsAppend5(SegmentRungs("marketing"), SegmentRungs("leads"), SegmentRungs("pipeline"),
      SegmentRungs("revenue"), SegmentRungs("retention"));
  }

  lemma DetailRungEnds()
    ensures EndsListed(DetailRungs())
  {
  }

  lemma DetailBlockEnds(step: string, suffix: string, start: nat, segmentStart: nat)
    requires start + 3 <= |IDS| && segmentStart + 10 < |IDS|
    requires SegmentId(step, "startup") == IDS[segmentStart] && SegmentId(step, "smb") == IDS[segmentStart + 5]
    requires SegmentId(step, "enterprise") == IDS[segmentStart + 10]
    requires DetailId(step, "startup", suffix) == IDS[start] && DetailId(step, "smb", suffix) == IDS[start + 1]
    requires DetailId(step, "enterprise", suffix) == IDS[start + 2]
    ensures EndsListed(DetailHierarchyBlock(step, suffix))
  {
  }

  lemma DetailBlocksEnds()
    ensures EndsListed(DetailHierarchyBlock("leads", "source"))
    ensures EndsListed(DetailHierarchyBlock("pipeline", "stage"))
    ensures EndsListed(DetailHierarchyBlock("revenue", "account"))
  {
    StartupIds();
    SmbIds();
    EnterpriseIds();
    LeadsDetailIds();
    PipelineDetailIds();
    RevenueDetailIds();
    DetailBlockEnds("leads", "source", 21, 7);
    DetailBlockEnds("pipeline", "stage", 24, 8);
    DetailBlockEnds("revenue", "account", 27, 9);
  }

  lemma DetailEnds()
    ensures EndsListed(DetailHierarchy())
  {
    DetailBlocksEnds();
    var a, b, c := DetailHierarchyBlock("leads", "source"), DetailHierarchyBlock("pipeline", "stage"),
      DetailHierarchyBlock("revenue", "account");
    EndsAppend(a, b);
    EndsAppend(a + b, c);
  }

  /** Every link joins two panels of the fixture. */
  lemma EndpointsAreIds()
    ensures forall l :: l in CausalLinks() ==> l.from in Ids(DefaultPanels()) && l.to in Ids(DefaultPanels())
  {
    DefaultPanelsUnique();
    SummaryEnds();
    SegmentEnds();
    RungEnds();
    DetailRungEnds();
    DetailEnds();
  }

  // ---------------------------------------------------------------------
  // Axis labels of the fixture

  /** A panel carries a non-empty processLabel, and one on level 2 or deeper
      also carries one of the three segment names. */
  predicate LabelsPresentAt(p: Panel) {
    && Truthy(p.processLabel)
    && (p.semantic.detailLevel >= 2 ==> p.segmentLabel in {Some("Startup"), Some("SMB"), Some("Enterprise")})
  }

  predicate AllLabelsPresent(ps: seq<Panel>) {
    forall k :: 0 <= k < |ps| ==> LabelsPresentAt(ps[k])
  }

  lemma LabelsPresentAppend(a: seq<Panel>, b: seq<Panel>)
    requires AllLabelsPresent(a) && AllLabelsPresent(b)
    ensures AllLabelsPresent(a + b)
  {
    forall k | 0 <= k < |a + b|
      ensures LabelsPresentAt((a + b)[k])
    {
      if k < |a| { assert (a + b)[k] == a[k]; } else { assert (a + b)[k] == b[k - |a|]; }
    }
  }

  lemma SegmentRowLabels(y: int, segLabel: string, lower: string)
    requires segLabel in {"Startup", "SMB", "Enterprise"}
    ensures AllLabelsPresent(SegmentRow(y, segLabel, lower))
  {
  }

  lemma DetailBlockLabels(stepName: string, step: int, suffix: string, what: string, chartType: string,
                          processLabel: string)
    requires processLabel != ""
    ensures AllLabelsPresent(DetailBlock(stepName, step, suffix, what, chartType, processLabel))
  {
  }

  /** Every fixture panel has a non-empty processLabel, and every panel on
      level 2 or deeper has the segmentLabel "Startup", "SMB" or "Enterprise". */
  lemma LabelsPresent()
    ensures forall k :: 0 <= k < |DefaultPanels()| ==>
      && Truthy(DefaultPanels()[k].processLabel)
      && (DefaultPanels()[k].semantic.detailLevel >= 2 ==>
            DefaultPanels()[k].segmentLabel in {Some("Startup"), Some("SMB"), Some("Enterprise")})
  {
    assert AllLabelsPresent([Root()]);
    assert AllLabelsPresent(SummaryPanels());
    SegmentRowLabels(0, "Startup", "startup");
    SegmentRowLabels(1, "SMB", "smb");
    SegmentRowLabels(2, "Enterprise", "enterprise");
    LabelsPresentAppend(SegmentRow(0, "Startup", "startup"), SegmentRow(1, "SMB", "smb"));
    LabelsPresentAppend(SegmentRow(0, "Startup", "startup") + SegmentRow(1, "SMB", "smb"),
                        SegmentRow(2, "Enterprise", "enterprise"));
    DetailBlockLabels("leads", 1, "source", "Leads by Source", "bar", "Leads");
    DetailBlockLabels("pipeline", 2, "stage", "Pipeline by Stage", "funnel", "Pipeline");
    DetailBlockLabels("revenue", 3, "account", "Revenue by Account", "bar", "Revenue");
    LabelsPresentAppend(DetailBlock("leads", 1, "source", "Leads by Source", "bar", "Leads"),
                        DetailBlock("pipeline", 2, "stage", "Pipeline by Stage", "funnel", "Pipeline"));
    LabelsPresentAppend(DetailBlock("leads", 1, "source", "Leads by Source", "bar", "Leads")
                        + DetailBlock("pipeline", 2, "stage", "Pipeline by Stage", "funnel", "Pipeline"),
                        DetailBlock("revenue", 3, "account", "Revenue by Account", "bar", "Revenue"));
    LabelsPresentAppend([Root()], SummaryPanels());
    LabelsPresentAppend([Root()] + SummaryPanels(), SegmentPanels());
    LabelsPresentAppend([Root()] + SummaryPanels() + SegmentPanels(), DetailPanels());
  }
}
