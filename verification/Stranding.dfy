/**
 Where convergence ends: a schema notification whose handler gives up at a slice
 without its export leaves other slices out of date with nothing left to do.
 */
module Stranding {
  import opened Wrappers
  import opened Labels
  import opened Apis
  import opened ClaimResolution
  import opened Definitions
  import opened Lifecycle
  import opened Refinement
  import opened Reuse
  import opened WorkQueues
  import opened Events
  import opened Convergence
  import DomainKeys

  /** While some slice lacks its export, a schema notification can be handled without queueing anything. */
  lemma AbortedDelivery(cfg: Config, w: World, key: ObjectKey)
    returns (worlds: seq<World>, actions: seq<Action>)
    requires WellKeyed(w.caches) && SchemaEvent(key) in w.pending
    requires !AllReferencesFound(w.caches, key.cluster)
    ensures Steps(cfg, worlds, actions) && worlds[0] == w
    ensures worlds[|actions|] == w.(pending := w.pending - multiset{SchemaEvent(key)})
    ensures |actions| == 2 && worlds[1].caches == w.caches
  {
    var list := SchemaEventCanReachNothing(w.caches, key);
    var h := Handler(SchemaEvent(key), [w.caches], {});
    var w1 := w.(pending := w.pending - multiset{SchemaEvent(key)}, handlers := w.handlers + [h]);
    var w2 := w.(pending := w.pending - multiset{SchemaEvent(key)});
    PresentIsMixture(w.caches, h.seen);
    var n := |w.handlers|;
    assert w1.handlers[..n] + w1.handlers[n + 1..] == w.handlers;
    worlds, actions := [w, w1, w2], [DeliverAction(SchemaEvent(key)), EndAction(n, w.caches, list)];
  }

  // ----- A concrete case -----

  const ORPHAN := EndpointSlice("root", "a", "root", "gone", LabelSelector(map[], []))
  const VICTIM := EndpointSlice("root", "b", "root", "widgets", LabelSelector(map[], []))
  const WIDGETS := APIExport("root", "root", "widgets", "hash", ["v1.widgets"], [], NoPolicy)
  const WIDGET_SCHEMA := Schema("uid", "example.io", "widgets", [Version("v1", true)], "root", "")
  const WIDGET_KEY := ObjectKey("root", "v1.widgets")
  const WIDGET_GVR := GVR("example.io", "v1", "widgets")

  const BEFORE := Caches(map[ORPHAN.Key() := ORPHAN, VICTIM.Key() := VICTIM],
                         map[ObjectKey("root", "widgets") := WIDGETS], map[], {}, {}, {}, false)
  const AFTER := BEFORE.(schemas := map[WIDGET_KEY := WIDGET_SCHEMA])

  lemma WidgetSchemas()
    ensures ExportSchemas(BEFORE, "root", ["v1.widgets"]) == Ok(map[])
    ensures ExportSchemas(AFTER, "root", ["v1.widgets"]) == Ok(map[WIDGET_SCHEMA.GR() := WIDGET_SCHEMA])
  {
    assert ["v1.widgets"][..0] == [];
  }

  /** The victim's inputs with the schemas `m` of its export. */
  function VictimBasis(m: map<GroupResource, Schema>): Basis { Basis(VICTIM, WIDGETS, Start(WIDGETS, m)) }

  const WITHOUT: Basis := VictimBasis(map[])
  const WITH: Basis := VictimBasis(map[WIDGET_SCHEMA.GR() := WIDGET_SCHEMA])

  lemma VictimPlans(cfg: Config)
    ensures Desired(cfg, BEFORE, VICTIM.Key()) == PlanShown(cfg, Serve(WITHOUT))
    ensures Desired(cfg, AFTER, VICTIM.Key()) == PlanShown(cfg, Serve(WITH))
  {
    WidgetSchemas();
    assert NoListings(0) == [];
  }

  lemma SlotInTable(r: Resolution, gr: GroupResource, i: nat)
    requires gr in r.schemas && i < |r.schemas[gr].versions| && r.schemas[gr].versions[i].served
    ensures Slot(r.schemas[gr], r.schemas[gr].versions[i]) in TableSlots(r)
    ensures Slot(r.schemas[gr], r.schemas[gr].versions[i]).GVR() in TableGVRs(r)
  {
  }

  lemma VictimViews(cfg: Config)
    ensures ScratchSucceeds(cfg, WITH) && ScratchSucceeds(cfg, WITHOUT)
    ensures ScratchView(cfg, WITHOUT) != ScratchView(cfg, WITH)
    ensures TableGVRs(WITHOUT.r) == {}
  {
    SlotInTable(WITH.r, WIDGET_SCHEMA.GR(), 0);
    assert WIDGET_GVR !in Fallbacks(WITHOUT);
    assert WIDGET_GVR in ScratchView(cfg, WITH);
  }

  lemma ExampleIsBenign(cfg: Config)
    ensures Benign(cfg, BEFORE) && Benign(cfg, AFTER)
  {
  }

  lemma ExampleChange()
    ensures CacheChange(BEFORE, AFTER, SchemaEvent(WIDGET_KEY))
  {
    assert BEFORE.schemas - {WIDGET_KEY} == AFTER.schemas - {WIDGET_KEY};
  }

  lemma ExampleConcerns()
    ensures Concerns(AFTER, SchemaEvent(WIDGET_KEY), VICTIM.Key())
    ensures !AllReferencesFound(AFTER, WIDGET_KEY.cluster)
  {
    assert ORPHAN.Key() in SlicesIn(AFTER, "root");
  }

  // ----- The run -----

  /** At rest but for pending notifications. */
  function Resting(c: Caches, pending: multiset<Event>, tracked: Tracked): World {
    World(c, EMPTY, pending, [], {}, Idle, tracked)
  }

  const NO_CHOICE := Choice([], [], [])

  function PlanNow(cfg: Config, c: Caches, k: ObjectKey): Plan { KeyPlan(cfg, c, k, []) }

  /** A reconcile of `k` without claims that is stable and meets no error. */
  ghost predicate Smooth(cfg: Config, c: Caches, s: Tracked, k: ObjectKey, ch: Choice) {
    && !c.Slice(k).Failed? && ClaimCount(c, k) == 0 && ch.listings == []
    && StableStep(cfg, s, DomainKeys.Format(k), PlanNow(cfg, c, k), ch)
    && Reconcile(cfg, s.core, DomainKeys.Format(k), PlanNow(cfg, c, k), ch).1
  }

  ghost function Tracking(cfg: Config, c: Caches, s: Tracked, k: ObjectKey, ch: Choice): Tracked
    requires Smooth(cfg, c, s, k, ch)
  {
    Track(cfg, s, DomainKeys.Format(k), PlanNow(cfg, c, k), ch)
  }

  /** Handle a slice notification that concerns its slice only: begin, queue the key, end. */
  lemma HandleOne(cfg: Config, c: Caches, pending: multiset<Event>, s: Tracked, slice: EndpointSlice)
    returns (w1: World, w2: World, w3: World, end: Action)
    requires WellKeyed(c) && SliceEvent(slice) in pending && SliceTargets(c, slice) == {slice.Key()}
    ensures Step(cfg, Resting(c, pending, s), w1, DeliverAction(SliceEvent(slice)))
    ensures Step(cfg, w1, w2, QueueAction(0, slice.Key())) && Step(cfg, w2, w3, end) && Reaches(w2, end)
    ensures !end.FinishAction? && w1.caches == w2.caches == c
    ensures w3 == Resting(c, pending - multiset{SliceEvent(slice)}, s)
                  .(queue := Queue([slice.Key()], {slice.Key()}, {}))
  {
    var w, k := Resting(c, pending, s), slice.Key();
    var h := Handler(SliceEvent(slice), [c], {});
    w1 := w.(pending := pending - multiset{SliceEvent(slice)}, handlers := [h]);
    w2 := w1.(queue := Queue([k], {k}, {}), handlers := [Convergence.Queueing(h, k)]);
    w3 := w2.(handlers := []);
    PresentIsMixture(c, h.seen);
    end := EndAction(0, c, []);
  }

  lemma WithoutIsWellFormed(cfg: Config)
    ensures WellFormed(cfg, WITHOUT)
  {
    WidgetSchemas();
    var none: seq<seq<APIExport>> := [];
    assert Resolved(cfg.tables, WITHOUT, BEFORE, none);
  }

  lemma VictimIsSmooth(cfg: Config)
    ensures PlanNow(cfg, BEFORE, VICTIM.Key()) == Serve(WITHOUT)
    ensures Smooth(cfg, BEFORE, START, VICTIM.Key(), NO_CHOICE)
  {
    WidgetSchemas();
    WithoutIsWellFormed(cfg);
    ServesFromStart(cfg, DomainKeys.Format(VICTIM.Key()), WITHOUT, NO_CHOICE);
  }

  /** From the start, a well-formed basis whose parameters can all be computed is served. */
  lemma ServesFromStart(cfg: Config, key: string, b: Basis, ch: Choice)
    requires Servable(cfg, b) && Enumerates(ch.schemas, b.r.schemas.Keys) && ch.cleanup == []
    ensures StableStep(cfg, START, key, Serve(b), ch)
    ensures Reconcile(cfg, START.core, key, Serve(b), ch).1
  {
    StartSatisfiesInvariant(cfg);
    assert StableStep(cfg, START, key, Serve(b), ch);
    StableStepServesScratch(cfg, START, key, b, ch);
  }

  lemma OrphanIsSmooth(cfg: Config, s: Tracked)
    ensures forall c :: c == BEFORE || c == AFTER ==>
              PlanNow(cfg, c, ORPHAN.Key()) == Remove && Smooth(cfg, c, s, ORPHAN.Key(), NO_CHOICE)
  {
  }

  lemma ExampleTargets()
    ensures SliceTargets(BEFORE, VICTIM) == SliceTargets(AFTER, VICTIM) == {VICTIM.Key()}
    ensures SliceTargets(BEFORE, ORPHAN) == SliceTargets(AFTER, ORPHAN) == {ORPHAN.Key()}
  {
  }

  /** Reconciled, the victim shows its from-scratch set without the schema. */
  lemma VictimShown(cfg: Config, s: Tracked)
    requires Smooth(cfg, BEFORE, START, VICTIM.Key(), NO_CHOICE)
    requires s == Tracking(cfg, BEFORE, START, VICTIM.Key(), NO_CHOICE)
    ensures Invariant(s.core) && ScratchSucceeds(cfg, WITHOUT)
    ensures ShownFor(s, VICTIM.Key()) == Showing(ScratchView(cfg, WITHOUT)) && RefusedOf(s, VICTIM.Key()) == {}
  {
    VictimIsSmooth(cfg);
    VictimViews(cfg);
    StartSatisfiesInvariant(cfg);
    TrackKeepsInvariant(cfg, START, DomainKeys.Format(VICTIM.Key()), Serve(WITHOUT), NO_CHOICE);
    PublishedAsPlanned(cfg, START, VICTIM.Key(), Serve(WITHOUT), NO_CHOICE);
    VictimIsRefusedNothing(cfg, s);
    WithoutMeaning(ScratchView(cfg, WITHOUT), {});
  }

  lemma VictimIsRefusedNothing(cfg: Config, s: Tracked)
    requires Smooth(cfg, BEFORE, START, VICTIM.Key(), NO_CHOICE)
    requires s == Tracking(cfg, BEFORE, START, VICTIM.Key(), NO_CHOICE)
    ensures RefusedOf(s, VICTIM.Key()) == {}
  {
    VictimIsSmooth(cfg);
    VictimViews(cfg);
  }

  /** A run of the controller from its start, under caches without odd lookup errors. */
  ghost predicate StepsThrough(cfg: Config, worlds: seq<World>, actions: seq<Action>) {
    && Steps(cfg, worlds, actions)
    && Starts(worlds[0])
    && forall i :: 0 <= i < |worlds| ==> Benign(cfg, worlds[i].caches)
  }

  lemma Extend(cfg: Config, worlds: seq<World>, actions: seq<Action>, w: World, a: Action)
    requires StepsThrough(cfg, worlds, actions)
    requires Step(cfg, worlds[|actions|], w, a) && Benign(cfg, w.caches)
    ensures StepsThrough(cfg, worlds + [w], actions + [a])
    ensures (worlds + [w])[|actions + [a]|] == w
    ensures AllReach(worlds, actions) && Reaches(worlds[|actions|], a) ==> AllReach(worlds + [w], actions + [a])
  {
    OneStepMore(cfg, worlds, actions, w, a);
  }

  /** Every handler of a schema notification reaches what it concerns. */
  ghost predicate AllReach(worlds: seq<World>, actions: seq<Action>)
    requires |worlds| == |actions| + 1
  {
    forall i :: 0 <= i < |actions| ==> Reaches(worlds[i], actions[i])
  }

  /** Continue a run by handling the notification of one slice. */
  lemma HandleNext(cfg: Config, worlds: seq<World>, actions: seq<Action>, c: Caches, pending: multiset<Event>,
                   s: Tracked, slice: EndpointSlice)
    returns (worlds': seq<World>, actions': seq<Action>)
    requires StepsThrough(cfg, worlds, actions) && worlds[|actions|] == Resting(c, pending, s)
    requires SliceEvent(slice) in pending && SliceTargets(c, slice) == {slice.Key()}
    ensures StepsThrough(cfg, worlds', actions') && (AllReach(worlds, actions) ==> AllReach(worlds', actions'))
    ensures worlds'[|actions'|]
            == Resting(c, pending - multiset{SliceEvent(slice)}, s).(queue := Queue([slice.Key()], {slice.Key()}, {}))
  {
    assert Benign(cfg, worlds[|actions|].caches);
    var w1, w2, w3, end := HandleOne(cfg, c, pending, s, slice);
    var a1, a2 := DeliverAction(SliceEvent(slice)), QueueAction(0, slice.Key());
    Extend(cfg, worlds, actions, w1, a1);
    Extend(cfg, worlds + [w1], actions + [a1], w2, a2);
    Extend(cfg, worlds + [w1] + [w2], actions + [a1] + [a2], w3, end);
    worlds', actions' := worlds + [w1] + [w2] + [w3], actions + [a1] + [a2] + [end];
  }

  /** Continue a run by reconciling one slice. */
  lemma ServeNext(cfg: Config, worlds: seq<World>, actions: seq<Action>, c: Caches, pending: multiset<Event>,
                  s: Tracked, slice: EndpointSlice, ch: Choice)
    returns (worlds': seq<World>, actions': seq<Action>)
    requires StepsThrough(cfg, worlds, actions) && worlds[|actions|] == Resting(c, pending, s)
    requires SliceEvent(slice) in pending && SliceTargets(c, slice) == {slice.Key()}
    requires Smooth(cfg, c, s, slice.Key(), ch)
    ensures StepsThrough(cfg, worlds', actions') && (AllReach(worlds, actions) ==> AllReach(worlds', actions'))
    ensures worlds'[|actions'|]
            == Resting(c, pending - multiset{SliceEvent(slice)}, Tracking(cfg, c, s, slice.Key(), ch))
  {
    worlds', actions' := HandleNext(cfg, worlds, actions, c, pending, s, slice);
    var w := worlds'[|actions'|];
    assert Benign(cfg, w.caches);
    var w1, w2 := ProcessingIsTwoSteps(cfg, w, ch);
    var finish := FinishAction(c, ch, cfg);
    Extend(cfg, worlds', actions', w1, TakeAction);
    Extend(cfg, worlds' + [w1], actions' + [TakeAction], w2, finish);
    worlds', actions' := worlds' + [w1] + [w2], actions' + [TakeAction] + [finish];
  }

  const BOTH := multiset{SliceEvent(VICTIM), SliceEvent(ORPHAN)}

  lemma StartOfRun(cfg: Config, c: Caches)
    requires c == BEFORE || c == AFTER
    ensures StepsThrough(cfg, [Resting(c, BOTH, START)], [])
  {
    ExampleIsBenign(cfg);
  }

  /** Then the other slice is reconciled; it has no export, and nothing changes for the victim. */
  lemma OrphanNext(cfg: Config, c: Caches, worlds: seq<World>, actions: seq<Action>, s: Tracked)
    returns (worlds': seq<World>, actions': seq<Action>, t: Tracked)
    requires c == BEFORE || c == AFTER
    requires StepsThrough(cfg, worlds, actions)
    requires worlds[|actions|] == Resting(c, BOTH - multiset{SliceEvent(VICTIM)}, s) && Invariant(s.core)
    ensures StepsThrough(cfg, worlds', actions') && worlds'[|actions'|] == Resting(c, multiset{}, t)
    ensures AllReach(worlds, actions) ==> AllReach(worlds', actions')
    ensures ShownFor(t, VICTIM.Key()) == ShownFor(s, VICTIM.Key())
    ensures RefusedOf(t, VICTIM.Key()) == RefusedOf(s, VICTIM.Key())
  {
    ExampleTargets();
    OrphanIsSmooth(cfg, s);
    worlds', actions' := ServeNext(cfg, worlds, actions, c, BOTH - multiset{SliceEvent(VICTIM)}, s, ORPHAN, NO_CHOICE);
    t := Tracking(cfg, c, s, ORPHAN.Key(), NO_CHOICE);
    OtherKeysUnchanged(cfg, s, ORPHAN.Key(), Remove, NO_CHOICE, VICTIM.Key());
    assert BOTH - multiset{SliceEvent(VICTIM)} - multiset{SliceEvent(ORPHAN)} == multiset{};
  }

  /** Both slices are reconciled, one after the other. */
  lemma BothServed(cfg: Config) returns (worlds: seq<World>, actions: seq<Action>, t: Tracked)
    ensures StepsThrough(cfg, worlds, actions)
    ensures worlds[|actions|] == Resting(BEFORE, multiset{}, t)
    ensures ScratchSucceeds(cfg, WITHOUT)
    ensures ShownFor(t, VICTIM.Key()) == Showing(ScratchView(cfg, WITHOUT)) && RefusedOf(t, VICTIM.Key()) == {}
  {
    StartOfRun(cfg, BEFORE);
    ExampleTargets();
    VictimIsSmooth(cfg);
    worlds, actions := ServeNext(cfg, [Resting(BEFORE, BOTH, START)], [], BEFORE, BOTH, START, VICTIM, NO_CHOICE);
    var s := Tracking(cfg, BEFORE, START, VICTIM.Key(), NO_CHOICE);
    VictimShown(cfg, s);
    worlds, actions, t := OrphanNext(cfg, BEFORE, worlds, actions, s);
  }

  lemma VictimIsOutOfDate(cfg: Config, w: World)
    requires w.caches == AFTER && ScratchSucceeds(cfg, WITHOUT)
    requires ShownFor(w.tracked, VICTIM.Key()) == Showing(ScratchView(cfg, WITHOUT))
    requires RefusedOf(w.tracked, VICTIM.Key()) == {}
    ensures !Fresh(cfg, w, VICTIM.Key())
  {
    VictimWants(cfg);
    WithoutMeaning(ScratchView(cfg, WITH), {});
  }

  lemma VictimWants(cfg: Config)
    ensures ScratchSucceeds(cfg, WITH) && ScratchSucceeds(cfg, WITHOUT)
    ensures Desired(cfg, AFTER, VICTIM.Key()) == Showing(ScratchView(cfg, WITH))
    ensures ScratchView(cfg, WITHOUT) != ScratchView(cfg, WITH)
  {
    VictimPlans(cfg);
    VictimViews(cfg);
  }

  /**
   A run of the controller, from its start, that comes to rest with a key out
   of date: two slices in one workspace, one of them naming an export that does
   not exist, are reconciled; then a schema of the other's export is added, and
   the handler of its notification gives up before it queues anything.
   */
  lemma StrandedExample(cfg: Config) returns (worlds: seq<World>, actions: seq<Action>)
    ensures StepsThrough(cfg, worlds, actions)
    ensures Quiescent(worlds[|actions|]) && !Fresh(cfg, worlds[|actions|], VICTIM.Key())
  {
    var t;
    worlds, actions, t := BothServed(cfg);
    ExampleIsBenign(cfg);
    ExampleChange();
    ExampleConcerns();
    var added := SchemaEvent(WIDGET_KEY);
    var changed := Resting(AFTER, multiset{added}, t);
    assert multiset{} + multiset{added} == multiset{added};
    Extend(cfg, worlds, actions, changed, CacheAction(added));
    worlds, actions := worlds + [changed], actions + [CacheAction(added)];
    var more, last := AbortedDelivery(cfg, changed, WIDGET_KEY);
    Extend(cfg, worlds, actions, more[1], last[0]);
    Extend(cfg, worlds + [more[1]], actions + [last[0]], more[2], last[1]);
    VictimIsOutOfDate(cfg, more[2]);
    worlds, actions := worlds + [more[1]] + [more[2]], actions + [last[0]] + [last[1]];
  }
}
