/**
 Reuse refines rebuild: what a reconcile publishes when it may keep old
 definitions, compared with what it would publish had it started from nothing.
 */
module Refinement {
  import opened Wrappers
  import opened Apis
  import opened ClaimResolution
  import opened Definitions
  import opened Lifecycle

  /** What readers see of a set: the parameters of the definition at each GVR. */
  type View = map<GVR, Params>

  function ViewOf(created: seq<Params>, ds: DefinitionSet): View {
    map gvr | gvr in ds && ds[gvr].def < |created| :: created[ds[gvr].def]
  }

  // ----- Well-formed resolutions -----

  /** The slots of the table that are served, as one set. */
  function TableSlots(r: Resolution): set<Slot> {
    set gr, i | gr in r.schemas && 0 <= i < |r.schemas[gr].versions| && r.schemas[gr].versions[i].served
      :: Slot(r.schemas[gr], r.schemas[gr].versions[i])
  }

  function TableGVRs(r: Resolution): set<GVR> {
    set slot | slot in TableSlots(r) :: slot.GVR()
  }

  /** The fallback definitions this resolution asks for. */
  function Fallbacks(b: Basis): View {
    if b.r.claimsFilteredSlices then BindingsFallbacks(b)
    else BindingsFallbacks(b)[SLICES_V1 := SlicesFallback("v1alpha1", b.apiExport.cluster, b.apiExport.name)]
  }

  function BindingsFallbacks(b: Basis): View {
    if b.r.claimsAPIBindings then map[]
    else
      map[BINDINGS_V1 := BindingsFallback("v1alpha1", b.apiExport.cluster, b.apiExport.name)]
         [BINDINGS_V2 := BindingsFallback("v1alpha2", b.apiExport.cluster, b.apiExport.name)]
  }

  /** No GVR is produced by two turns of the build loops, nor by a turn and a fallback. */
  ghost predicate UniqueGVRs(b: Basis) {
    && (forall gr, i, gr', i' ::
          && gr in b.r.schemas && 0 <= i < |b.r.schemas[gr].versions| && b.r.schemas[gr].versions[i].served
          && gr' in b.r.schemas && 0 <= i' < |b.r.schemas[gr'].versions| && b.r.schemas[gr'].versions[i'].served
          && Slot(b.r.schemas[gr], b.r.schemas[gr].versions[i]).GVR()
             == Slot(b.r.schemas[gr'], b.r.schemas[gr'].versions[i']).GVR()
          ==> gr == gr' && i == i')
    && TableGVRs(b.r) !! Fallbacks(b).Keys
  }

  // ----- Building from nothing, declaratively -----

  function SlotParams(cfg: Config, b: Basis, slot: Slot): Option<Params> {
    NewParams(cfg, b, slot.schema, slot.version.name)
  }

  /** The slot that produces a GVR of the table. */
  ghost function SlotAt(r: Resolution, gvr: GVR): Slot
    requires gvr in TableGVRs(r)
  {
    var slot :| slot in TableSlots(r) && slot.GVR() == gvr; slot
  }

  ghost predicate ScratchSucceeds(cfg: Config, b: Basis) {
    forall slot :: slot in TableSlots(b.r) ==> SlotParams(cfg, b, slot).Some?
  }

  /**
   What a build from nothing publishes when no creation is refused, without
   reference to any iteration order.
   */
  ghost function ScratchView(cfg: Config, b: Basis): View
    requires ScratchSucceeds(cfg, b)
  {
    (map gvr | gvr in TableGVRs(b.r) :: SlotParams(cfg, b, SlotAt(b.r, gvr)).value) + Fallbacks(b)
  }

  /** The slot needs a new definition and its creation is refused. */
  predicate Refuses(cfg: Config, b: Basis, prev: DefinitionSet, slot: Slot) {
    !Reused(b, prev, slot) && SlotParams(cfg, b, slot).Some? && !cfg.creatable(SlotParams(cfg, b, slot).value)
  }

  /** The GVRs a build leaves out because the creator refuses them. */
  ghost function Refused(cfg: Config, b: Basis, prev: DefinitionSet): set<GVR> {
    set gvr | gvr in TableGVRs(b.r) && Refuses(cfg, b, prev, SlotAt(b.r, gvr))
  }

  // ----- The slots an iteration order visits -----

  lemma {:induction false} SchemaSlotsAt(s: Schema, n: nat)
    requires n <= |s.versions|
    ensures |SchemaSlots(s, n)| == n
    ensures forall i :: 0 <= i < n ==> SchemaSlots(s, n)[i] == Slot(s, s.versions[i])
  {
    if n > 0 {
      SchemaSlotsAt(s, n - 1);
    }
  }

  /** Where a slot comes from. */
  ghost predicate FromTable(r: Resolution, order: seq<GroupResource>, slot: Slot, gr: GroupResource, i: nat) {
    && gr in order && gr in r.schemas && i < |r.schemas[gr].versions|
    && slot == Slot(r.schemas[gr], r.schemas[gr].versions[i])
  }

  lemma {:induction false} SlotsComeFromTable(r: Resolution, order: seq<GroupResource>)
    requires forall gr :: gr in order ==> gr in r.schemas
    ensures forall slot :: slot in Slots(r, order) ==> exists gr, i :: FromTable(r, order, slot, gr, i)
    ensures forall slot, gr, i :: FromTable(r, order, slot, gr, i) ==> slot in Slots(r, order)
  {
    if order == [] {
    } else {
      var last := |order| - 1;
      var init, g := order[..last], order[last];
      var s := r.schemas[g];
      SlotsComeFromTable(r, init);
      SchemaSlotsAt(s, |s.versions|);
      forall slot | slot in Slots(r, order) ensures exists gr, i :: FromTable(r, order, slot, gr, i) {
        if slot in Slots(r, init) {
          var gr, i :| FromTable(r, init, slot, gr, i);
          assert FromTable(r, order, slot, gr, i);
        } else {
          var i :| 0 <= i < |s.versions| && SchemaSlots(s, |s.versions|)[i] == slot;
          assert FromTable(r, order, slot, g, i);
        }
      }
      forall slot, gr, i: nat | FromTable(r, order, slot, gr, i) ensures slot in Slots(r, order) {
        if gr != g {
          assert FromTable(r, init, slot, gr, i);
        } else {
          assert SchemaSlots(s, |s.versions|)[i] == slot;
        }
      }
    }
  }

  ghost predicate DistinctServed(slots: seq<Slot>) {
    forall j, k :: 0 <= j < k < |slots| && slots[j].version.served && slots[k].version.served
                   ==> slots[j].GVR() != slots[k].GVR()
  }

  lemma {:induction false} SlotsAreDistinct(b: Basis, order: seq<GroupResource>)
    requires UniqueGVRs(b)
    requires NoDuplicates(order) && forall gr :: gr in order ==> gr in b.r.schemas
    ensures DistinctServed(Slots(b.r, order))
  {
    if order == [] {
    } else {
      var last := |order| - 1;
      var init, g := order[..last], order[last];
      var s := b.r.schemas[g];
      SlotsAreDistinct(b, init);
      SlotsComeFromTable(b.r, init);
      SchemaSlotsAt(s, |s.versions|);
      var slots, front := Slots(b.r, order), Slots(b.r, init);
      forall j, k | 0 <= j < k < |slots| && slots[j].version.served && slots[k].version.served
        ensures slots[j].GVR() != slots[k].GVR()
      {
        if |front| <= k {
          assert slots[k] == Slot(s, s.versions[k - |front|]);
          if j < |front| {
            assert slots[j] in front;
            var gr, i :| FromTable(b.r, init, slots[j], gr, i);
          } else {
            assert slots[j] == Slot(s, s.versions[j - |front|]);
          }
        }
      }
    }
  }

  lemma SlotsAreTheTable(r: Resolution, order: seq<GroupResource>)
    requires Enumerates(order, r.schemas.Keys)
    ensures forall slot :: slot in Slots(r, order) && slot.version.served <==> slot in TableSlots(r)
  {
    SlotsComeFromTable(r, order);
    forall slot | slot in Slots(r, order) && slot.version.served ensures slot in TableSlots(r) {
      var gr, i :| FromTable(r, order, slot, gr, i);
    }
    forall slot | slot in TableSlots(r) ensures slot in Slots(r, order) && slot.version.served {
      var gr, i :| gr in r.schemas && 0 <= i < |r.schemas[gr].versions| && r.schemas[gr].versions[i].served
                   && slot == Slot(r.schemas[gr], r.schemas[gr].versions[i]);
      assert FromTable(r, order, slot, gr, i);
    }
  }

  // ----- What the build loops leave for each slot -----

  ghost predicate SlotBuilt(cfg: Config, b: Basis, prev: DefinitionSet, base: nat, p: Progress, slot: Slot) {
    var gvr := slot.GVR();
    if Reused(b, prev, slot) then
      gvr in p.entries && p.entries[gvr] == prev[gvr]
    else
      && SlotParams(cfg, b, slot).Some?
      && if cfg.creatable(SlotParams(cfg, b, slot).value) then
           && gvr in p.entries
           && base <= p.entries[gvr].def < |p.created|
           && p.entries[gvr] == Entry(p.entries[gvr].def, slot.schema.uid, b.apiExport.identityHash)
           && p.created[p.entries[gvr].def] == SlotParams(cfg, b, slot).value
         else
           gvr !in p.entries
  }

  ghost predicate Blocked(cfg: Config, b: Basis, prev: DefinitionSet, slot: Slot) {
    slot.version.served && !Reused(b, prev, slot) && SlotParams(cfg, b, slot).None?
  }

  ghost predicate ServedBy(slots: seq<Slot>, gvr: GVR) {
    exists slot :: slot in slots && slot.version.served && slot.GVR() == gvr
  }

  ghost predicate BuiltExactly(cfg: Config, b: Basis, prev: DefinitionSet, created: seq<Params>, slots: seq<Slot>,
                               p: Progress)
  {
    && p.dropped == {}
    && created <= p.created
    && (forall slot :: slot in slots && slot.version.served ==> SlotBuilt(cfg, b, prev, |created|, p, slot))
    && (forall gvr :: gvr in p.entries ==> ServedBy(slots, gvr))
  }

  lemma AddSlotBuilds(cfg: Config, b: Basis, prev: DefinitionSet, created: seq<Params>, slots: seq<Slot>, x: Slot,
                      p: Progress)
    requires BuiltExactly(cfg, b, prev, created, slots, p) && !p.failed
    requires !ServedBy(slots, x.GVR()) || !x.version.served
    requires !Blocked(cfg, b, prev, x)
    ensures var q := AddSlot(cfg, b, prev, |created|, x, p);
            !q.failed && BuiltExactly(cfg, b, prev, created, slots + [x], q)
  {
    var q := AddSlot(cfg, b, prev, |created|, x, p);
    forall slot | slot in slots + [x] && slot.version.served ensures SlotBuilt(cfg, b, prev, |created|, q, slot) {
      if slot in slots {
        assert SlotBuilt(cfg, b, prev, |created|, p, slot);
        assert x.version.served ==> slot.GVR() != x.GVR();
      }
    }
    forall gvr | gvr in q.entries ensures ServedBy(slots + [x], gvr) {
      if gvr in p.entries {
        var slot :| slot in slots && slot.version.served && slot.GVR() == gvr;
        assert slot in slots + [x];
      } else {
        assert x in slots + [x];
      }
    }
  }

  lemma {:induction false} AddSlotsBuilds(cfg: Config, b: Basis, prev: DefinitionSet, created: seq<Params>,
                                          slots: seq<Slot>)
    requires DistinctServed(slots)
    ensures var p := AddSlots(cfg, b, prev, |created|, slots, Nothing(created));
            && (p.failed <==> exists slot :: slot in slots && Blocked(cfg, b, prev, slot))
            && (!p.failed ==> BuiltExactly(cfg, b, prev, created, slots, p))
  {
    if slots == [] {
    } else {
      var last := |slots| - 1;
      var init, x := slots[..last], slots[last];
      assert slots == init + [x];
      AddSlotsBuilds(cfg, b, prev, created, init);
      var p := AddSlots(cfg, b, prev, |created|, init, Nothing(created));
      if !p.failed && !Blocked(cfg, b, prev, x) {
        AddSlotBuilds(cfg, b, prev, created, init, x, p);
      }
      assert forall slot :: slot in slots <==> slot in init || slot == x;
    }
  }

  // ----- The whole build -----

  /** Table slots and the fallbacks `fb` are in place, nothing else is, and nothing was dropped. */
  ghost predicate Filled(cfg: Config, b: Basis, prev: DefinitionSet, created: seq<Params>, fb: View, p: Progress) {
    && p.dropped == {}
    && created <= p.created
    && (forall slot :: slot in TableSlots(b.r) ==> SlotBuilt(cfg, b, prev, |created|, p, slot))
    && (forall gvr :: gvr in fb ==>
          && gvr in p.entries && p.entries[gvr].def < |p.created|
          && p.created[p.entries[gvr].def] == fb[gvr]
          && p.entries[gvr].identityHash == "")
    && (forall gvr :: gvr in p.entries ==> gvr in TableGVRs(b.r) || gvr in fb)
  }

  lemma SlotStaysBuilt(cfg: Config, b: Basis, prev: DefinitionSet, base: nat, p: Progress, gvr: GVR, params: Params,
                       slot: Slot)
    requires SlotBuilt(cfg, b, prev, base, p, slot) && slot.GVR() != gvr
    ensures SlotBuilt(cfg, b, prev, base, Create(p, base, gvr, params, "", ""), slot)
  {
  }

  lemma CreateFallback(cfg: Config, b: Basis, prev: DefinitionSet, created: seq<Params>, fb: View, p: Progress,
                       gvr: GVR, params: Params)
    requires Filled(cfg, b, prev, created, fb, p)
    requires gvr !in TableGVRs(b.r) && gvr !in fb
    ensures Filled(cfg, b, prev, created, fb[gvr := params], Create(p, |created|, gvr, params, "", ""))
  {
    var q := Create(p, |created|, gvr, params, "", "");
    assert gvr !in p.entries;
    assert q.created == p.created + [params];
    forall slot | slot in TableSlots(b.r) ensures SlotBuilt(cfg, b, prev, |created|, q, slot) {
      assert slot.GVR() in TableGVRs(b.r);
      SlotStaysBuilt(cfg, b, prev, |created|, p, gvr, params, slot);
    }
  }

  lemma AddBindingsFills(cfg: Config, b: Basis, prev: DefinitionSet, created: seq<Params>, p: Progress)
    requires Filled(cfg, b, prev, created, map[], p)
    requires TableGVRs(b.r) !! BindingsFallbacks(b).Keys
    ensures Filled(cfg, b, prev, created, BindingsFallbacks(b), AddBindingsFallback(b, |created|, p))
  {
    if !b.r.claimsAPIBindings {
      var v1 := BindingsFallback("v1alpha1", b.apiExport.cluster, b.apiExport.name);
      var v2 := BindingsFallback("v1alpha2", b.apiExport.cluster, b.apiExport.name);
      assert BINDINGS_V1 in BindingsFallbacks(b) && BINDINGS_V2 in BindingsFallbacks(b);
      CreateFallback(cfg, b, prev, created, map[], p, BINDINGS_V1, v1);
      var p1 := Create(p, |created|, BINDINGS_V1, v1, "", "");
      CreateFallback(cfg, b, prev, created, map[BINDINGS_V1 := v1], p1, BINDINGS_V2, v2);
    }
  }

  lemma AddFallbacksFills(cfg: Config, b: Basis, prev: DefinitionSet, created: seq<Params>, p: Progress)
    requires UniqueGVRs(b)
    requires Filled(cfg, b, prev, created, map[], p)
    ensures Filled(cfg, b, prev, created, Fallbacks(b),
                   AddSlicesFallback(b, |created|, AddBindingsFallback(b, |created|, p)))
  {
    AddBindingsFills(cfg, b, prev, created, p);
    if !b.r.claimsFilteredSlices {
      assert SLICES_V1 in Fallbacks(b);
      assert SLICES_V1 !in BindingsFallbacks(b);
      CreateFallback(cfg, b, prev, created, BindingsFallbacks(b), AddBindingsFallback(b, |created|, p), SLICES_V1,
                     SlicesFallback("v1alpha1", b.apiExport.cluster, b.apiExport.name));
    }
  }

  /** The result of a build that met no error. */
  ghost predicate Complete(cfg: Config, b: Basis, prev: DefinitionSet, created: seq<Params>, p: Progress) {
    Filled(cfg, b, prev, created, Fallbacks(b), p)
  }

  lemma BuildCompletes(cfg: Config, b: Basis, prev: DefinitionSet, created: seq<Params>, order: seq<GroupResource>)
    requires UniqueGVRs(b) && Enumerates(order, b.r.schemas.Keys)
    ensures var p := Build(cfg, b, prev, order, created);
            && (p.failed <==> exists slot :: slot in TableSlots(b.r) && Blocked(cfg, b, prev, slot))
            && (!p.failed ==> Complete(cfg, b, prev, created, p))
  {
    var slots := Slots(b.r, order);
    SlotsAreDistinct(b, order);
    SlotsAreTheTable(b.r, order);
    AddSlotsBuilds(cfg, b, prev, created, slots);
    var p := AddSlots(cfg, b, prev, |created|, slots, Nothing(created));
    if !p.failed {
      forall gvr | gvr in p.entries ensures gvr in TableGVRs(b.r) {
        var slot :| slot in slots && slot.version.served && slot.GVR() == gvr;
        assert slot in TableSlots(b.r);
      }
      AddFallbacksFills(cfg, b, prev, created, p);
    }
  }

  // ----- Reuse against rebuild -----

  /** Every entry that would be reused has the parameters a build from nothing would create it with. */
  ghost predicate ReuseAgrees(cfg: Config, b: Basis, prev: DefinitionSet, created: seq<Params>) {
    forall slot :: slot in TableSlots(b.r) && Reused(b, prev, slot) ==>
                     var def := prev[slot.GVR()].def;
                     def < |created| && SlotParams(cfg, b, slot) == Some(created[def])
  }

  lemma SlotAtIsUnique(b: Basis, slot: Slot)
    requires UniqueGVRs(b) && slot in TableSlots(b.r)
    ensures slot.GVR() in TableGVRs(b.r) && SlotAt(b.r, slot.GVR()) == slot
  {
    assert slot.GVR() in TableGVRs(b.r);
    var other := SlotAt(b.r, slot.GVR());
    var gr, i :| gr in b.r.schemas && 0 <= i < |b.r.schemas[gr].versions| && b.r.schemas[gr].versions[i].served
                 && slot == Slot(b.r.schemas[gr], b.r.schemas[gr].versions[i]);
    var gr', i' :| gr' in b.r.schemas && 0 <= i' < |b.r.schemas[gr'].versions|
                   && b.r.schemas[gr'].versions[i'].served
                   && other == Slot(b.r.schemas[gr'], b.r.schemas[gr'].versions[i']);
  }

  /** The published view at one slot of the table. */
  lemma ViewAtSlot(cfg: Config, b: Basis, prev: DefinitionSet, created: seq<Params>, p: Progress, slot: Slot)
    requires UniqueGVRs(b) && ScratchSucceeds(cfg, b)
    requires KnownSet(prev, created) && Complete(cfg, b, prev, created, p)
    requires slot in TableSlots(b.r)
    ensures var gvr := slot.GVR();
            && Get(ScratchView(cfg, b), gvr) == SlotParams(cfg, b, slot)
            && (gvr in Refused(cfg, b, prev) <==> Refuses(cfg, b, prev, slot))
            && Get(ViewOf(p.created, p.entries), gvr)
               == (if Reused(b, prev, slot) then Some(created[prev[gvr].def])
                   else if gvr in Refused(cfg, b, prev) then None
                   else SlotParams(cfg, b, slot))
  {
    SlotAtIsUnique(b, slot);
    assert SlotBuilt(cfg, b, prev, |created|, p, slot);
    assert slot.GVR() !in Fallbacks(b);
    if Reused(b, prev, slot) {
      var def := prev[slot.GVR()].def;
      assert p.created[def] == created[def];
    }
  }

  lemma ViewElsewhere(cfg: Config, b: Basis, prev: DefinitionSet, created: seq<Params>, p: Progress, gvr: GVR)
    requires UniqueGVRs(b) && ScratchSucceeds(cfg, b)
    requires Complete(cfg, b, prev, created, p)
    requires gvr !in TableGVRs(b.r)
    ensures Get(ViewOf(p.created, p.entries), gvr) == Get(ScratchView(cfg, b), gvr)
  {
  }

  /** The parts of a view outside a set of GVRs. */
  function Without(v: View, gvrs: set<GVR>): View { v - gvrs }

  lemma WithoutMeaning(v: View, gvrs: set<GVR>)
    ensures Without(v, gvrs).Keys == v.Keys - gvrs
    ensures forall gvr :: gvr in Without(v, gvrs) ==> Without(v, gvrs)[gvr] == v[gvr]
    ensures gvrs <= v.Keys ==> (Without(v, gvrs) == v <==> gvrs == {})
  {
    if gvr :| gvr in gvrs {
      assert gvr !in Without(v, gvrs);
    }
  }

  lemma AgreeingReuseShowsScratch(cfg: Config, b: Basis, prev: DefinitionSet, created: seq<Params>, p: Progress)
    requires UniqueGVRs(b) && ScratchSucceeds(cfg, b)
    requires KnownSet(prev, created) && Complete(cfg, b, prev, created, p)
    requires ReuseAgrees(cfg, b, prev, created)
    ensures ViewOf(p.created, p.entries) == Without(ScratchView(cfg, b), Refused(cfg, b, prev))
  {
    var view, rest := ViewOf(p.created, p.entries), Without(ScratchView(cfg, b), Refused(cfg, b, prev));
    forall gvr ensures Get(view, gvr) == Get(rest, gvr) {
      if gvr in TableGVRs(b.r) {
        var slot :| slot in TableSlots(b.r) && slot.GVR() == gvr;
        ViewAtSlot(cfg, b, prev, created, p, slot);
      } else {
        ViewElsewhere(cfg, b, prev, created, p, gvr);
      }
    }
    SameLookupsSameView(view, rest);
  }

  lemma ScratchShownMeansAgreement(cfg: Config, b: Basis, prev: DefinitionSet, created: seq<Params>, p: Progress)
    requires UniqueGVRs(b) && ScratchSucceeds(cfg, b)
    requires KnownSet(prev, created) && Complete(cfg, b, prev, created, p)
    requires ViewOf(p.created, p.entries) == Without(ScratchView(cfg, b), Refused(cfg, b, prev))
    ensures ReuseAgrees(cfg, b, prev, created)
  {
    forall slot | slot in TableSlots(b.r) && Reused(b, prev, slot)
      ensures SlotParams(cfg, b, slot) == Some(created[prev[slot.GVR()].def])
    {
      ViewAtSlot(cfg, b, prev, created, p, slot);
    }
  }

  /**
   One reconcile, exactly: with unique GVRs it publishes what a build from
   nothing publishes, less the creations refused now, if and only if every
   reused entry agrees with that build; and when they agree it fails exactly
   when the build from nothing fails.
   */
  lemma ReuseRefinesRebuildIff(cfg: Config, b: Basis, prev: DefinitionSet, created: seq<Params>,
                               order: seq<GroupResource>)
    requires UniqueGVRs(b) && Enumerates(order, b.r.schemas.Keys)
    requires KnownSet(prev, created)
    ensures var p := Build(cfg, b, prev, order, created);
            && (!p.failed && ScratchSucceeds(cfg, b) ==>
                  (ViewOf(p.created, p.entries) == Without(ScratchView(cfg, b), Refused(cfg, b, prev))
                   <==> ReuseAgrees(cfg, b, prev, created)))
            && (ReuseAgrees(cfg, b, prev, created) ==> (p.failed <==> !ScratchSucceeds(cfg, b)))
  {
    BuildCompletes(cfg, b, prev, created, order);
    var p := Build(cfg, b, prev, order, created);
    if !p.failed && ScratchSucceeds(cfg, b) {
      if ReuseAgrees(cfg, b, prev, created) {
        AgreeingReuseShowsScratch(cfg, b, prev, created, p);
      } else if ViewOf(p.created, p.entries) == Without(ScratchView(cfg, b), Refused(cfg, b, prev)) {
        ScratchShownMeansAgreement(cfg, b, prev, created, p);
      }
    }
  }

  /** The whole from-scratch view is published if and only if reuse agrees and nothing is refused. */
  lemma PublishesAllIff(cfg: Config, b: Basis, prev: DefinitionSet, created: seq<Params>, order: seq<GroupResource>)
    requires UniqueGVRs(b) && Enumerates(order, b.r.schemas.Keys)
    requires KnownSet(prev, created)
    requires var p := Build(cfg, b, prev, order, created); !p.failed && ScratchSucceeds(cfg, b)
    ensures var p := Build(cfg, b, prev, order, created);
            ViewOf(p.created, p.entries) == ScratchView(cfg, b)
            <==> ReuseAgrees(cfg, b, prev, created) && Refused(cfg, b, prev) == {}
  {
    BuildCompletes(cfg, b, prev, created, order);
    ReuseRefinesRebuildIff(cfg, b, prev, created, order);
    WithoutMeaning(ScratchView(cfg, b), Refused(cfg, b, prev));
    var p := Build(cfg, b, prev, order, created);
    if ViewOf(p.created, p.entries) == ScratchView(cfg, b) {
      NothingRefused(cfg, b, prev, created, p);
    }
  }

  lemma NothingRefused(cfg: Config, b: Basis, prev: DefinitionSet, created: seq<Params>, p: Progress)
    requires UniqueGVRs(b) && ScratchSucceeds(cfg, b)
    requires KnownSet(prev, created) && Complete(cfg, b, prev, created, p)
    requires ViewOf(p.created, p.entries) == ScratchView(cfg, b)
    ensures Refused(cfg, b, prev) == {}
  {
    forall gvr | gvr in TableGVRs(b.r) ensures gvr !in Refused(cfg, b, prev) {
      ViewAtSlot(cfg, b, prev, created, p, SlotAt(b.r, gvr));
    }
  }

  lemma SameLookupsSameView(v: View, w: View)
    requires forall gvr :: Get(v, gvr) == Get(w, gvr)
    ensures v == w
  {
    forall gvr ensures gvr in v <==> gvr in w {
      assert Get(v, gvr) == Get(w, gvr);
    }
    forall gvr | gvr in v ensures v[gvr] == w[gvr] {
      assert Get(v, gvr) == Get(w, gvr);
    }
  }
}
