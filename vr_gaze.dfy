/** Gaze selection in the headset: each frame the gaze ray's hits are
    searched for the first object (or ancestor) tagged with a panel id, the
    highlight follows the gazed panel, and a trigger press focuses it. The
    ray cast is an input: each hit is the chain of `userData.panelId` values
    from the hit object up through its ancestors. */
module VRGaze {
  import opened Panels
  import opened DashboardStore

  /** One hit: the panel-id tags of the object and its ancestors, nearest first. */
  type Hit = seq<Option<string>>

  /** The first truthy tag along one hit's ancestor chain. */
  function TagOf(hit: Hit): (r: Option<string>)
    ensures r.Some? ==> Truthy(r) && exists k ::
      && 0 <= k < |hit| && hit[k] == r
      && forall j :: 0 <= j < k ==> !Truthy(hit[j])
    ensures r.None? ==> forall j :: 0 <= j < |hit| ==> !Truthy(hit[j])
  {
    if |hit| == 0 then None
    else if Truthy(hit[0]) then hit[0]
    else
      var r := TagOf(hit[1..]);
      assert forall j :: 1 <= j < |hit| ==> hit[j] == hit[1..][j - 1];
      r
  }

  /** The gazed panel: the tag of the first hit that has one. */
  function Gazed(hits: seq<Hit>): (r: Option<string>)
    ensures r.Some? ==> Truthy(r) && exists k ::
      && 0 <= k < |hits| && TagOf(hits[k]) == r
      && forall j :: 0 <= j < k ==> TagOf(hits[j]).None?
    ensures r.None? ==> forall j :: 0 <= j < |hits| ==> TagOf(hits[j]).None?
  {
    if |hits| == 0 then None
    else if TagOf(hits[0]).Some? then TagOf(hits[0])
    else
      var r := Gazed(hits[1..]);
      assert forall j :: 1 <= j < |hits| ==> hits[j] == hits[1..][j - 1];
      r
  }

  /** An input source: whether it has a gamepad, and its button 0 if any
      (`Some(pressed)`). */
  datatype Source = Source(hasGamepad: bool, trigger: Option<bool>)

  predicate Pressed(src: Source) {
    src.trigger == Some(true)
  }

  /** One source's turn in the trigger loop: a press while the shared flag
      is down raises it and focuses the gazed panel; a source whose trigger
      is not pressed lowers it. */
  function SourceStep(s: StoreState, flag: bool, src: Source, gazed: Option<string>): (StoreState, bool) {
    if !src.hasGamepad then (s, flag)
    else if Pressed(src) && !flag then (if Truthy(gazed) then FocusOp(s, gazed.value) else s, true)
    else if !Pressed(src) then (s, false)
    else (s, flag)
  }

  /** The trigger loop over all sources, in order. */
  function TriggerRun(s: StoreState, flag: bool, sources: seq<Source>, gazed: Option<string>): (StoreState, bool)
    decreases |sources|
  {
    if |sources| == 0 then (s, flag)
    else
      var (s1, f1) := SourceStep(s, flag, sources[0], gazed);
      TriggerRun(s1, f1, sources[1..], gazed)
  }

  lemma RunUnfold(s: StoreState, flag: bool, sources: seq<Source>, i: nat, gazed: Option<string>)
    requires i < |sources|
    ensures var next := SourceStep(s, flag, sources[i], gazed);
      TriggerRun(s, flag, sources[i..], gazed) == TriggerRun(next.0, next.1, sources[i + 1..], gazed)
  {
    assert sources[i..][0] == sources[i] && sources[i..][1..] == sources[i + 1..];
  }

  /** The panels shown highlighted: the last gazed one, if any. */
  function HighlightOf(last: Option<string>): set<string> {
    if Truthy(last) then {last.value} else {}
  }

  class GazeInteraction {
    var lastGazedPanelId: Option<string>
    var triggerPressed: bool
    var highlighted: set<string>

    predicate Valid()
      reads this
    {
      highlighted == HighlightOf(lastGazedPanelId)
    }

    constructor ()
      ensures Valid() && lastGazedPanelId == None && !triggerPressed
    {
      lastGazedPanelId := None;
      triggerPressed := false;
      highlighted := {};
    }

    /** The search over the hits: the outer loop over hits, the inner one up
        the ancestor chain, both stopping at the first tag. */
    static method FindGazed(hits: seq<Hit>) returns (gazed: Option<string>)
      ensures gazed == Gazed(hits)
    {
      gazed := None;
      var i := 0;
      while i < |hits|
        invariant 0 <= i <= |hits|
        invariant gazed.None?
        invariant Gazed(hits) == Gazed(hits[i..])
      {
        var hit := hits[i];
        var k := 0;
        while k < |hit|
          invariant 0 <= k <= |hit|
          invariant gazed.None?
          invariant TagOf(hit) == TagOf(hit[k..])
        {
          if Truthy(hit[k]) {
            gazed := hit[k];
            break;
          }
          assert hit[k..][1..] == hit[k + 1..];
          k := k + 1;
        }
        if Truthy(gazed) {
          assert TagOf(hit) == gazed;
          assert hits[i..][0] == hit;
          return;
        }
        assert TagOf(hit).None?;
        assert hits[i..][1..] == hits[i + 1..];
        i := i + 1;
      }
    }

    /** Move the highlight when the gazed panel changes. */
    method UpdateHighlight(gazed: Option<string>)
      requires Valid()
      modifies this
      ensures Valid()
      ensures lastGazedPanelId == gazed && triggerPressed == old(triggerPressed)
      ensures gazed == old(lastGazedPanelId) ==> highlighted == old(highlighted)
    {
      if gazed != lastGazedPanelId {
        if Truthy(lastGazedPanelId) {
          highlighted := highlighted - {lastGazedPanelId.value};
        }
        if Truthy(gazed) {
          highlighted := highlighted + {gazed.value};
        }
        lastGazedPanelId := gazed;
      }
    }

    /** One source's turn in the trigger loop. */
    method PollSource(store: Store, src: Source, gazed: Option<string>)
      requires store.Valid()
      modifies this`triggerPressed, store
      ensures store.Valid()
      ensures (store.State(), triggerPressed) == SourceStep(old(store.State()), old(triggerPressed), src, gazed)
    {
      if src.hasGamepad {
        if Pressed(src) && !triggerPressed {
          triggerPressed := true;
          if Truthy(gazed) {
            store.FocusPanel(gazed.value);
          }
        } else if !Pressed(src) {
          triggerPressed := false;
        }
      }
    }

    /** The trigger loop: one shared flag for all sources. */
    method PollTriggers(store: Store, sources: seq<Source>, gazed: Option<string>)
      requires store.Valid()
      modifies this`triggerPressed, store
      ensures store.Valid()
      ensures (store.State(), triggerPressed) == TriggerRun(old(store.State()), old(triggerPressed), sources, gazed)
    {
      var i := 0;
      while i < |sources|
        invariant 0 <= i <= |sources|
        invariant store.Valid()
        invariant TriggerRun(store.State(), triggerPressed, sources[i..], gazed)
          == TriggerRun(old(store.State()), old(triggerPressed), sources, gazed)
      {
        RunUnfold(store.State(), triggerPressed, sources, i, gazed);
        PollSource(store, sources[i], gazed);
        i := i + 1;
      }
    }

    /** One frame: nothing without a session; otherwise find the gazed
        panel, move the highlight, and poll the triggers. */
    method Frame(store: Store, session: bool, hits: seq<Hit>, sources: seq<Source>)
      requires store.Valid() && Valid()
      modifies this, store
      ensures store.Valid() && Valid()
      ensures !session ==>
        store.State() == old(store.State()) && lastGazedPanelId == old(lastGazedPanelId)
        && triggerPressed == old(triggerPressed) && highlighted == old(highlighted)
      ensures session ==>
        && lastGazedPanelId == Gazed(hits)
        && (store.State(), triggerPressed)
             == TriggerRun(old(store.State()), old(triggerPressed), sources, Gazed(hits))
    {
      if !session {
        return;
      }
      var gazed := FindGazed(hits);
      UpdateHighlight(gazed);
      PollTriggers(store, sources, gazed);
    }
  }

  // ---------------------------------------------------------------------
  // Properties

  /** A held trigger on a single source fires once: the first frame raises
      the flag and focuses, later frames change nothing. */
  lemma HeldTriggerFiresOnce(s: StoreState, gazed: Option<string>)
    requires Truthy(gazed)
    ensures var held := [Source(true, Some(true))];
      && TriggerRun(s, false, held, gazed) == (FocusOp(s, gazed.value), true)
      && TriggerRun(FocusOp(s, gazed.value), true, held, gazed) == (FocusOp(s, gazed.value), true)
  {
  }

  /** Releasing re-arms the detector; a press with nothing gazed consumes
      the edge without focusing. */
  lemma ReleaseRearms(s: StoreState, flag: bool, gazed: Option<string>)
    ensures TriggerRun(s, flag, [Source(true, Some(false))], gazed) == (s, false)
    ensures TriggerRun(s, flag, [Source(true, None)], gazed) == (s, false)
    ensures !Truthy(gazed) ==> TriggerRun(s, false, [Source(true, Some(true))], gazed) == (s, true)
  {
  }

  /** With the flag shared, an idle second controller lowers it every frame,
      so a held trigger fires again on every frame. */
  lemma SharedFlagRefires(s: StoreState, gazed: Option<string>)
    requires Truthy(gazed)
    ensures var both := [Source(true, Some(true)), Source(true, Some(false))];
      TriggerRun(s, false, both, gazed) == (FocusOp(s, gazed.value), false)
  {
  }

  /** Whatever the sources and flag, the trigger loop leaves the store as it
      was or focused on the gazed panel. */
  lemma {:induction false} TriggerOnlyFocusesGazed(s: StoreState, flag: bool, sources: seq<Source>, gazed: Option<string>)
    ensures var t := TriggerRun(s, flag, sources, gazed).0;
      t == s || (Truthy(gazed) && t == FocusOp(s, gazed.value))
    decreases |sources|
  {
    if |sources| > 0 {
      var (s1, f1) := SourceStep(s, flag, sources[0], gazed);
      TriggerOnlyFocusesGazed(s1, f1, sources[1..], gazed);
      if s1 != s {
        FocusIdempotent(s, gazed.value);
      }
    }
  }

  /** Once the gazed panel is focused, re-firing changes nothing: the store
      moves at most once however often the trigger fires. */
  lemma {:induction false} RefireIsHarmless(s: StoreState, flag: bool, sources: seq<Source>, gazed: Option<string>)
    requires Truthy(gazed) && s.focusedPanelId == gazed
    ensures TriggerRun(s, flag, sources, gazed).0 == s
    decreases |sources|
  {
    if |sources| > 0 {
      var (s1, f1) := SourceStep(s, flag, sources[0], gazed);
      assert s1 == s;
      RefireIsHarmless(s1, f1, sources[1..], gazed);
    }
  }

  /** Every trigger loop keeps the store invariant. */
  lemma {:induction false} TriggerInv(s: StoreState, flag: bool, sources: seq<Source>, gazed: Option<string>)
    requires Inv(s)
    ensures Inv(TriggerRun(s, flag, sources, gazed).0)
  {
    TriggerOnlyFocusesGazed(s, flag, sources, gazed);
    if Truthy(gazed) {
      FocusInv(s, gazed.value);
    }
  }

  /** At most one panel is highlighted, and it is the last gazed one. */
  lemma HighlightIsGazed(last: Option<string>)
    ensures |HighlightOf(last)| <= 1
    ensures forall id :: id in HighlightOf(last) <==> last == Some(id) && id != ""
  {
  }
}
