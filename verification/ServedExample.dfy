/**
 The hypotheses of the run theorems can be met, and what a refused creation
 leaves behind: one slice, one export, one schema.
 */
module ServedExample {
  import opened Wrappers
  import opened Apis
  import opened Definitions
  import opened Lifecycle
  import opened Refinement
  import opened Reuse
  import opened Events
  import opened Convergence
  import opened FilteredView
  import opened Rest
  import opened Stranding
  import DomainKeys

  const ONLY: GroupResource := WIDGET_SCHEMA.GR()
  const CHOICE: Choice := Choice([], [ONLY], [])
  const WIDGET_SLOT := Slot(WIDGET_SCHEMA, Version("v1", true))

  lemma WithIsServable(cfg: Config)
    ensures Servable(cfg, WITH)
    ensures Enumerates(CHOICE.schemas, WITH.r.schemas.Keys)
  {
    WidgetSchemas();
    var none: seq<seq<APIExport>> := [];
    assert Resolved(cfg.tables, WITH, AFTER, none);
    assert WITH.r.schemas == map[ONLY := WIDGET_SCHEMA];
    KeyedTablesAreUnique(WITH);
  }

  lemma WidgetIsWanted(cfg: Config)
    ensures WIDGET_SLOT in TableSlots(WITH.r) && SlotAt(WITH.r, WIDGET_GVR) == WIDGET_SLOT
    ensures SlotParams(cfg, WITH, WIDGET_SLOT).Some?
    ensures ScratchSucceeds(cfg, WITH) && WIDGET_GVR in ScratchView(cfg, WITH) && Exported(WITH, WIDGET_GVR)
  {
    WithIsServable(cfg);
    SlotInTable(WITH.r, ONLY, 0);
    SlotAtIsUnique(WITH, WIDGET_SLOT);
  }

  /** The first reconcile of a key, with what the creator refuses it. */
  lemma FirstServed(cfg: Config, key: string, b: Basis, ch: Choice)
    requires Servable(cfg, b) && Enumerates(ch.schemas, b.r.schemas.Keys) && ch.cleanup == []
    ensures StableStep(cfg, START, key, Serve(b), ch)
    ensures var t := Track(cfg, START, key, Serve(b), ch);
            && TrackedInvariant(cfg, t)
            && key in t.served && t.served[key] == Served(b, Refused(cfg, b, map[]))
  {
    ServesFromStart(cfg, key, b, ch);
    StartSatisfiesInvariant(cfg);
    TrackKeepsInvariant(cfg, START, key, Serve(b), ch);
  }

  lemma RefusedIff(cfg: Config)
    ensures SlotParams(cfg, WITH, WIDGET_SLOT).Some?
    ensures WIDGET_GVR in Refused(cfg, WITH, map[]) <==> !cfg.creatable(SlotParams(cfg, WITH, WIDGET_SLOT).value)
  {
    WidgetIsWanted(cfg);
  }

  /** Whatever the from-scratch view of the last inputs holds is served, unless it was refused. */
  lemma ScratchIsServed(cfg: Config, t: Tracked, key: string, gvr: GVR)
    requires TrackedInvariant(cfg, t) && key in t.served
    requires gvr in ScratchView(cfg, t.served[key].basis) && gvr !in t.served[key].refused
    ensures ServedParams(t, key, gvr).Some?
  {
    var x := t.served[key];
    assert MatchesServed(cfg, x, t.core.created, t.core.sets[key]);
    MatchingMeaning(cfg, x.basis, x.refused, t.core.created, t.core.sets[key]);
  }

  lemma OneStepRun(cfg: Config, key: string, plan: Plan, ch: Choice)
    requires StableStep(cfg, START, key, plan, ch)
    ensures StableRun(cfg, [START, Track(cfg, START, key, plan, ch)])
  {
    assert StableStepTo(cfg, cfg, START, key, plan, ch, Track(cfg, START, key, plan, ch));
  }

  /** A stable run that serves an exported resource exists. */
  lemma SomeStableRunServes(cfg: Config, key: string) returns (states: seq<Tracked>)
    requires forall p :: cfg.creatable(p)
    ensures StableRun(cfg, states) && |states| == 2
    ensures key in states[1].served && states[1].served[key].basis == WITH && Exported(WITH, WIDGET_GVR)
    ensures ServedParams(states[1], key, WIDGET_GVR).Some?
  {
    WithIsServable(cfg);
    WidgetIsWanted(cfg);
    RefusedIff(cfg);
    FirstServed(cfg, key, WITH, CHOICE);
    var t := Track(cfg, START, key, Serve(WITH), CHOICE);
    OneStepRun(cfg, key, Serve(WITH), CHOICE);
    states := [START, t];
    ScratchIsServed(cfg, t, key, WIDGET_GVR);
  }

  // ----- A run that ends with a refused creation -----

  lemma VictimIsServedSmoothly(cfg: Config)
    ensures PlanNow(cfg, AFTER, VICTIM.Key()) == Serve(WITH)
    ensures Smooth(cfg, AFTER, START, VICTIM.Key(), CHOICE)
  {
    WidgetSchemas();
    WithIsServable(cfg);
    ServesFromStart(cfg, DomainKeys.Format(VICTIM.Key()), WITH, CHOICE);
  }

  lemma VictimServed(cfg: Config) returns (s: Tracked)
    ensures Smooth(cfg, AFTER, START, VICTIM.Key(), CHOICE) && s == Tracking(cfg, AFTER, START, VICTIM.Key(), CHOICE)
    ensures Invariant(s.core) && RefusedOf(s, VICTIM.Key()) == Refused(cfg, WITH, map[])
  {
    VictimIsServedSmoothly(cfg);
    WithIsServable(cfg);
    FirstServed(cfg, DomainKeys.Format(VICTIM.Key()), WITH, CHOICE);
    s := Tracking(cfg, AFTER, START, VICTIM.Key(), CHOICE);
  }

  /** The run: the victim is reconciled, then the orphan. */
  lemma WidgetRun(cfg: Config) returns (worlds: seq<World>, actions: seq<Action>, t: Tracked)
    ensures BenignRun(cfg, worlds, actions)
    ensures worlds[|actions|] == Resting(AFTER, multiset{}, t)
    ensures RefusedOf(t, VICTIM.Key()) == Refused(cfg, WITH, map[])
  {
    StartOfRun(cfg, AFTER);
    ExampleTargets();
    var s := VictimServed(cfg);
    worlds, actions := ServeNext(cfg, [Resting(AFTER, BOTH, START)], [], AFTER, BOTH, START, VICTIM, CHOICE);
    worlds, actions, t := OrphanNext(cfg, AFTER, worlds, actions, s);
  }

  /**
   A run within all hypotheses of the convergence theorem that comes to rest:
   the widgets are wanted, and they are shown exactly if their creation was not
   refused. Nothing is left that would try it again.
   */
  lemma RefusedCreationStays(cfg: Config) returns (worlds: seq<World>, actions: seq<Action>)
    ensures BenignRun(cfg, worlds, actions) && Quiescent(worlds[|actions|])
    ensures SlotParams(cfg, WITH, WIDGET_SLOT).Some?
    ensures var wanted := Desired(cfg, worlds[|actions|].caches, VICTIM.Key());
            var shown := ShownFor(worlds[|actions|].tracked, VICTIM.Key());
            && wanted.Showing? && WIDGET_GVR in wanted.view
            && shown.Showing?
            && (WIDGET_GVR in shown.view <==> cfg.creatable(SlotParams(cfg, WITH, WIDGET_SLOT).value))
  {
    var t;
    worlds, actions, t := WidgetRun(cfg);
    QuiescentRunsAreCorrect(cfg, worlds, actions, |actions|, VICTIM.Key());
    VictimWants(cfg);
    WidgetIsWanted(cfg);
    RefusedIff(cfg);
    WithoutMeaning(ScratchView(cfg, WITH), RefusedOf(t, VICTIM.Key()));
  }

  // ----- Settled caches -----

  /** The victim without the orphan beside it. */
  const CALM: Caches := AFTER.(slices := map[VICTIM.Key() := VICTIM])

  lemma VictimIsReady(cfg: Config)
    ensures Ready(cfg, CALM, START, VICTIM.Key())
  {
    var k := VICTIM.Key();
    ExampleIsBenign(cfg);
    assert InternalFor(cfg, AFTER, k);
    AlikeSamePlan(cfg, AFTER, CALM, k, NoListings(0), NoListings(0));
    VictimIsServedSmoothly(cfg);
    assert NoListings(0) == [];
    WithIsServable(cfg);
  }

  lemma CalmReaches(ev: Event)
    ensures DeliveryReaches(CALM, ev)
  {
    if ev.SchemaEvent? {
      forall k | Concerns(CALM, ev, k)
        ensures AllReferencesFound(CALM, ev.key.cluster) && Reached(CALM, ev.key, k)
      {
        LocalConcernIsReached(CALM, ev.key, k);
      }
    }
  }

  lemma CalmIsBenign(cfg: Config)
    ensures Benign(cfg, CALM)
  {
  }

  lemma CalmIsSettled(cfg: Config)
    ensures Settled(cfg, CALM, START)
  {
    forall k ensures Ready(cfg, CALM, START, k) {
      if k == VICTIM.Key() {
        VictimIsReady(cfg);
      }
    }
    forall ev ensures DeliveryReaches(CALM, ev) {
      CalmReaches(ev);
    }
  }

  /** From the start on these caches the controller reaches rest. */
  lemma CalmComesToRest(cfg: Config) returns (worlds: seq<World>, actions: seq<Action>)
    ensures Path(cfg, worlds, actions) && Starts(worlds[0]) && worlds[0].caches == CALM
    ensures Quiescent(worlds[|actions|]) && forall k :: Fresh(cfg, worlds[|actions|], k)
  {
    var w := Resting(CALM, multiset{SliceEvent(VICTIM)}, START);
    CalmIsBenign(cfg);
    CalmIsSettled(cfg);
    StartSatisfies(cfg, w);
    worlds, actions := RestIsReached(cfg, w);
  }
}
