/** The message handling of an embedded report panel. The iframe posts
    `analytics:drill` messages; the panel answers each with at most one
    callback: a drill to the target its drill map names for the category,
    else a positional item click, else a category-only item click (index -1). */
module EmbedPanel {
  import opened Panels
  import EmbedMockData

  const DRILL_MESSAGE_TYPE := "analytics:drill"
  const DEFAULT_SANDBOX := "allow-scripts allow-same-origin"

  /** Display names of the known report providers. */
  function ProviderLabels(): map<string, string> {
    map["powerbi" := "Power BI", "tableau" := "Tableau", "looker-studio" := "Looker Studio",
        "metabase" := "Metabase", "looker" := "Looker", "custom" := "Report"]
  }

  /** `label ?? PROVIDER_LABELS[provider] ?? 'Embed'`: only an absent label
      falls through, so an empty label is shown as it is. */
  function ProviderLabel(config: EmbedConfig): (r: string)
    ensures config.displayLabel.Some? ==> r == config.displayLabel.value
    ensures config.displayLabel.None? && config.provider in ProviderLabels() ==> r == ProviderLabels()[config.provider]
    ensures config.displayLabel.None? && config.provider !in ProviderLabels() ==> r == "Embed"
  {
    match config.displayLabel
    case Some(l) => l
    case None => if config.provider in ProviderLabels() then ProviderLabels()[config.provider] else "Embed"
  }

  /** `sandbox ?? 'allow-scripts allow-same-origin'` */
  function SandboxValue(config: EmbedConfig): (r: string)
    ensures config.sandbox.None? ==> r == DEFAULT_SANDBOX
    ensures config.sandbox.Some? ==> r == config.sandbox.value
  {
    match config.sandbox
    case Some(s) => s
    case None => DEFAULT_SANDBOX
  }

  /** The `data` of a posted message: a non-object, `null`, or an object
      whose `type`, `category` and `index` fields are read (absent as None). */
  datatype MessageData =
    | NotAnObject
    | Null
    | Object(messageType: Option<string>, category: Option<string>, index: Option<int>)

  /** A message event: its data, and whether its source is this panel's iframe window. */
  datatype MessageEvent = MessageEvent(fromOwnFrame: bool, data: MessageData)

  /** Which optional callbacks the panel was given. */
  datatype Callbacks = Callbacks(hasItemClick: bool, hasDrillTo: bool)

  /** The one callback a message triggers, if any. */
  datatype Action = NoAction | DrillTo(targetId: string) | ItemClick(index: int, category: Option<string>)

  /** `isDrillMessage`: an object, not null, whose `type` is the drill type. */
  predicate IsDrillMessage(data: MessageData) {
    data.Object? && data.messageType == Some(DRILL_MESSAGE_TYPE)
  }

  /** The source check is made only while the iframe element is mounted. */
  predicate Accepted(iframeMounted: bool, ev: MessageEvent) {
    !(iframeMounted && !ev.fromOwnFrame) && IsDrillMessage(ev.data)
  }

  /** The drill map's truthy target for a truthy category, if any. */
  function DrillTarget(category: Option<string>, drillMap: Option<map<string, string>>): (r: Option<string>)
    ensures r.Some? <==> Truthy(category) && drillMap.Some? && category.value in drillMap.value
                         && drillMap.value[category.value] != ""
    ensures r.Some? ==> r.value == drillMap.value[category.value]
  {
    if Truthy(category) && drillMap.Some? && category.value in drillMap.value
       && drillMap.value[category.value] != ""
    then Some(drillMap.value[category.value])
    else None
  }

  /** `handleMessage` */
  function HandleMessage(iframeMounted: bool, ev: MessageEvent, drillMap: Option<map<string, string>>,
                         callbacks: Callbacks): (r: Action)
    // a foreign or non-drill message triggers nothing
    ensures !Accepted(iframeMounted, ev) ==> r == NoAction
    // a drill-map hit calls onDrillTo (when given) and nothing else
    ensures r.DrillTo? <==>
      Accepted(iframeMounted, ev) && DrillTarget(ev.data.category, drillMap).Some? && callbacks.hasDrillTo
    ensures r.DrillTo? ==> r.targetId in drillMap.value.Values
    ensures Accepted(iframeMounted, ev) && DrillTarget(ev.data.category, drillMap).Some? ==> !r.ItemClick?
    // otherwise a present index (0 included) is passed on with the category
    ensures Accepted(iframeMounted, ev) && DrillTarget(ev.data.category, drillMap).None?
            && ev.data.index.Some? && callbacks.hasItemClick
            ==> r == ItemClick(ev.data.index.value, ev.data.category)
    // otherwise a truthy category alone is passed on with index -1
    ensures Accepted(iframeMounted, ev) && DrillTarget(ev.data.category, drillMap).None?
            && ev.data.index.None? && callbacks.hasItemClick
            ==> r == (if Truthy(ev.data.category) then ItemClick(-1, ev.data.category) else NoAction)
    ensures r.ItemClick? ==> callbacks.hasItemClick
  {
    if iframeMounted && !ev.fromOwnFrame then NoAction
    else if !IsDrillMessage(ev.data) then NoAction
    else
      var category, index := ev.data.category, ev.data.index;
      match DrillTarget(category, drillMap)
      case Some(target) => if callbacks.hasDrillTo then DrillTo(target) else NoAction
      case None =>
        if index.Some? && callbacks.hasItemClick then ItemClick(index.value, category)
        else if Truthy(category) && callbacks.hasItemClick then ItemClick(-1, category)
        else NoAction
  }

  /** Before the iframe is mounted (or after it is removed on a load error)
      the source check is skipped, so a drill message from another window is
      acted on. */
  lemma UnmountedAcceptsAnySource(ev: MessageEvent, drillMap: Option<map<string, string>>, callbacks: Callbacks)
    requires !ev.fromOwnFrame && IsDrillMessage(ev.data) && callbacks.hasItemClick && callbacks.hasDrillTo && ev.data.index.Some?
    ensures HandleMessage(false, ev, drillMap, callbacks) != NoAction
    ensures HandleMessage(true, ev, drillMap, callbacks) == NoAction
  {
  }

  /** Every embed panel of the dataset is labelled "Report", uses the default
      sandbox, and a drill it triggers lands on one of its own child panels. */
  lemma EmbedPanelDrillsToChild(panels: seq<Panel>, isDev: bool, i: nat, iframeMounted: bool,
                                ev: MessageEvent, callbacks: Callbacks)
    requires i < |panels|
    ensures var config := EmbedMockData.EmbedPanels(panels, isDev)[i].data.config;
      && ProviderLabel(config) == "Report"
      && SandboxValue(config) == DEFAULT_SANDBOX
      && (HandleMessage(iframeMounted, ev, config.drillMap, callbacks).DrillTo? ==>
            exists j :: (0 <= j < |panels|
              && panels[j].id == HandleMessage(iframeMounted, ev, config.drillMap, callbacks).targetId
              && panels[j].parentId == Some(panels[i].id)))
  {
    EmbedMockData.EmbedPanelsShape(panels, isDev, i);
    var config := EmbedMockData.EmbedPanels(panels, isDev)[i].data.config;
    var r := HandleMessage(iframeMounted, ev, config.drillMap, callbacks);
    if r.DrillTo? {
      EmbedMockData.DrillTargetsAreChildren(panels, isDev, i, ev.data.category.value);
    }
  }
}
