/** The chart registry: one module-level map from chart type to renderer,
    filled by `registerChart` and read by `getChartRenderer`. A renderer is
    any value of the type parameter `R`. */
module ChartRegistry {
  import opened Panels

  /** `map.get(chartType)`: the entry, or nothing for an unregistered type. */
  function Lookup<R>(renderers: map<string, R>, chartType: string): (r: Option<R>)
    ensures r.Some? <==> chartType in renderers
    ensures r.Some? ==> r.value == renderers[chartType]
  {
    if chartType in renderers then Some(renderers[chartType]) else None
  }

  class Registry<R> {
    var renderers: map<string, R>

    /** The registry starts empty: every type is unregistered. */
    constructor()
      ensures renderers == map[]
      ensures forall t :: Lookup(renderers, t) == None
    {
      renderers := map[];
    }

    /** `registerChart`: the type now yields `renderer`, replacing any earlier
        one, and every other type yields what it did before. */
    method Register(chartType: string, renderer: R)
      modifies this
      ensures renderers == old(renderers)[chartType := renderer]
      ensures Lookup(renderers, chartType) == Some(renderer)
      ensures forall t :: t != chartType ==> Lookup(renderers, t) == Lookup(old(renderers), t)
    {
      renderers := renderers[chartType := renderer];
    }

    /** `getChartRenderer` */
    method Get(chartType: string) returns (r: Option<R>)
      ensures r.Some? <==> chartType in renderers
      ensures r.Some? ==> r.value == renderers[chartType]
    {
      r := Lookup(renderers, chartType);
    }
  }

  /** Registering a type twice and then reading it back yields the second
      renderer; every other type yields what it did before. */
  method ReRegisterOverwrites<R>(reg: Registry<R>, chartType: string, first: R, second: R) returns (r: Option<R>)
    modifies reg
    ensures r == Some(second)
    ensures forall t :: t != chartType ==> Lookup(reg.renderers, t) == Lookup(old(reg.renderers), t)
  {
    reg.Register(chartType, first);
    reg.Register(chartType, second);
    r := reg.Get(chartType);
  }
}
