/**
 Reuse over whole runs: under stable inputs every published set is what a
 build from nothing would publish, however many reconciles carried its entries.
 */
module Reuse {
  import opened Wrappers
  import opened Apis
  import opened ClaimResolution
  import opened Definitions
  import opened Lifecycle
  import opened Refinement

  // ----- Stable inputs -----

  /** Every schema stands in the table under its own group and resource. */
  predicate Keyed(r: Resolution) {
    forall gr :: gr in r.schemas ==> r.schemas[gr].GR() == gr
  }

  ghost predicate Resolved(t: Tables, b: Basis, c: Caches, listings: seq<seq<APIExport>>) {
    |listings| == |b.apiExport.claims| && Resolve(t, c, b.apiExport, listings) == Ok(b.r)
  }

  /** The resolution of `b` is one the claim loop computed from some caches. */
  ghost predicate Genuine(t: Tables, b: Basis) {
    exists c, listings :: Resolved(t, b, c, listings)
  }

  /**
   Two reconciles of one key see the same selector and export name, the same
   claim for every resource both serve, and one schema per GVR and UID.
   */
  ghost predicate StableInputs(b0: Basis, b: Basis) {
    && b0.slice.selector == b.slice.selector
    && b0.apiExport.cluster == b.apiExport.cluster
    && b0.apiExport.name == b.apiExport.name
    && (forall gr :: gr in b0.r.schemas && gr in b.r.schemas ==> Get(b0.r.claims, gr) == Get(b.r.claims, gr))
    && (forall slot0, slot :: slot0 in TableSlots(b0.r) && slot in TableSlots(b.r)
                              && slot0.GVR() == slot.GVR() && slot0.schema.uid == slot.schema.uid
                              ==> slot0.schema == slot.schema)
  }

  // ----- What a published set is -----

  /** Inputs of a serving reconcile: computed by the claim loop, keyed, without colliding GVRs. */
  ghost predicate WellFormed(cfg: Config, b: Basis) {
    Genuine(cfg.tables, b) && Keyed(b.r) && UniqueGVRs(b) && b.apiExport.identityHash != ""
  }

  ghost predicate Servable(cfg: Config, b: Basis) {
    WellFormed(cfg, b) && ScratchSucceeds(cfg, b)
  }

  /** Table entries carry their schema's UID and the export's identity; fallbacks carry none. */
  ghost predicate Marked(b: Basis, ds: DefinitionSet) {
    forall gvr :: gvr in ds ==>
                    if gvr in TableGVRs(b.r) then
                      ds[gvr].uid == SlotAt(b.r, gvr).schema.uid && ds[gvr].identityHash == b.apiExport.identityHash
                    else
                      ds[gvr].identityHash == ""
  }

  /** `ds` is what basis `b` publishes, entry by entry, except for the `refused` entries of its table. */
  ghost predicate Matching(cfg: Config, b: Basis, refused: set<GVR>, created: seq<Params>, ds: DefinitionSet) {
    && Servable(cfg, b)
    && KnownSet(ds, created)
    && refused <= TableGVRs(b.r)
    && ViewOf(created, ds) == Without(ScratchView(cfg, b), refused)
    && Marked(b, ds)
  }

  /** What a matching set holds, entry by entry, and when it is the whole from-scratch set. */
  lemma MatchingMeaning(cfg: Config, b: Basis, refused: set<GVR>, created: seq<Params>, ds: DefinitionSet)
    requires Matching(cfg, b, refused, created, ds)
    ensures forall gvr :: gvr in ds && gvr in TableGVRs(b.r) ==>
              SlotParams(cfg, b, SlotAt(b.r, gvr)) == Some(created[ds[gvr].def])
    ensures forall gvr :: gvr in Fallbacks(b) ==> gvr in ds && created[ds[gvr].def] == Fallbacks(b)[gvr]
    ensures ds.Keys == TableGVRs(b.r) + Fallbacks(b).Keys - refused
    ensures ViewOf(created, ds) == ScratchView(cfg, b) <==> refused == {}
  {
    var view, scratch := ViewOf(created, ds), ScratchView(cfg, b);
    WithoutMeaning(scratch, refused);
    assert view.Keys == ds.Keys;
    assert scratch.Keys == TableGVRs(b.r) + Fallbacks(b).Keys;
    forall gvr | gvr in ds
      ensures created[ds[gvr].def] == scratch[gvr]
      ensures gvr in TableGVRs(b.r) && gvr !in Fallbacks(b) ==>
                scratch[gvr] == SlotParams(cfg, b, SlotAt(b.r, gvr)).value
    {
      assert view[gvr] == created[ds[gvr].def];
    }
  }

  // ----- When reuse is faithful, on the inputs of the two reconciles -----

  /** A definition for the old slot passes the reuse test for the new one. */
  predicate Indistinguishable(b0: Basis, refused: set<GVR>, b: Basis, slot0: Slot, slot: Slot) {
    && slot0 in TableSlots(b0.r) && slot in TableSlots(b.r)
    && slot0.GVR() == slot.GVR() && slot0.GVR() !in refused
    && slot0.schema.uid == slot.schema.uid
    && b0.apiExport.identityHash == b.apiExport.identityHash
  }

  /** The two inputs give the slots the same schema, identity and label requirements. */
  predicate SameBacking(cfg: Config, b0: Basis, b: Basis, slot0: Slot, slot: Slot) {
    && slot0.schema == slot.schema
    && IdentityFor(b0, slot.schema.GR()) == IdentityFor(b, slot.schema.GR())
    && Requirements(cfg, b0, slot.schema.GR()) == Requirements(cfg, b, slot.schema.GR())
  }

  /** Whatever passes the reuse test has the same backing as before. */
  ghost predicate NothingStale(cfg: Config, b0: Basis, refused: set<GVR>, b: Basis) {
    forall slot0, slot :: Indistinguishable(b0, refused, b, slot0, slot) ==> SameBacking(cfg, b0, b, slot0, slot)
  }

  lemma SameParamsIff(cfg: Config, b0: Basis, b: Basis, slot0: Slot, slot: Slot)
    requires slot0.GVR() == slot.GVR() && SlotParams(cfg, b0, slot0).Some?
    ensures SlotParams(cfg, b0, slot0) == SlotParams(cfg, b, slot) <==> SameBacking(cfg, b0, b, slot0, slot)
  {
  }

  /** The definition an old slot left in a matching set. */
  lemma OldEntry(cfg: Config, b0: Basis, refused: set<GVR>, created: seq<Params>, prev: DefinitionSet, slot0: Slot)
    requires Matching(cfg, b0, refused, created, prev)
    requires slot0 in TableSlots(b0.r) && slot0.GVR() !in refused
    ensures var gvr := slot0.GVR();
            && gvr in prev && prev[gvr].uid == slot0.schema.uid
            && prev[gvr].identityHash == b0.apiExport.identityHash
            && prev[gvr].def < |created| && SlotParams(cfg, b0, slot0) == Some(created[prev[gvr].def])
  {
    SlotAtIsUnique(b0, slot0);
    MatchingMeaning(cfg, b0, refused, created, prev);
  }

  /** And the old slot behind an entry that is reused. */
  lemma OldSlot(cfg: Config, b0: Basis, refused: set<GVR>, created: seq<Params>, prev: DefinitionSet, b: Basis,
                slot: Slot)
    returns (slot0: Slot)
    requires Matching(cfg, b0, refused, created, prev) && b.apiExport.identityHash != ""
    requires slot in TableSlots(b.r) && Reused(b, prev, slot)
    ensures Indistinguishable(b0, refused, b, slot0, slot)
  {
    var gvr := slot.GVR();
    MatchingMeaning(cfg, b0, refused, created, prev);
    assert gvr in TableGVRs(b0.r);
    slot0 := SlotAt(b0.r, gvr);
  }

  /**
   Reuse agrees with a build from nothing if and only if nothing that passes
   the reuse test has got another schema, identity or label requirement.
   */
  lemma ReuseAgreesIff(cfg: Config, b0: Basis, refused: set<GVR>, b: Basis, created: seq<Params>, prev: DefinitionSet)
    requires Matching(cfg, b0, refused, created, prev) && b.apiExport.identityHash != ""
    ensures ReuseAgrees(cfg, b, prev, created) <==> NothingStale(cfg, b0, refused, b)
  {
    if ReuseAgrees(cfg, b, prev, created) {
      forall slot0, slot | Indistinguishable(b0, refused, b, slot0, slot) ensures SameBacking(cfg, b0, b, slot0, slot) {
        OldEntry(cfg, b0, refused, created, prev, slot0);
        assert Reused(b, prev, slot);
        SameParamsIff(cfg, b0, b, slot0, slot);
      }
    }
    if NothingStale(cfg, b0, refused, b) {
      forall slot | slot in TableSlots(b.r) && Reused(b, prev, slot)
        ensures var def := prev[slot.GVR()].def;
                def < |created| && SlotParams(cfg, b, slot) == Some(created[def])
      {
        var slot0 := OldSlot(cfg, b0, refused, created, prev, b, slot);
        OldEntry(cfg, b0, refused, created, prev, slot0);
        SameParamsIff(cfg, b0, b, slot0, slot);
      }
    }
  }

  /**
   What a caller can check before a reconcile: it publishes what a build from
   nothing would, less the creations refused now, if and only if nothing that
   passes the reuse test has got another schema, identity or label requirement
   since the set was published.
   */
  lemma ServesScratchIff(cfg: Config, b0: Basis, refused: set<GVR>, b: Basis, created: seq<Params>,
                         prev: DefinitionSet, order: seq<GroupResource>)
    requires Matching(cfg, b0, refused, created, prev)
    requires WellFormed(cfg, b) && ScratchSucceeds(cfg, b) && Enumerates(order, b.r.schemas.Keys)
    ensures var p := Build(cfg, b, prev, order, created);
            && !p.failed
            && (ViewOf(p.created, p.entries) == Without(ScratchView(cfg, b), Refused(cfg, b, prev))
                <==> NothingStale(cfg, b0, refused, b))
  {
    BuildCompletes(cfg, b, prev, created, order);
    ReuseRefinesRebuildIff(cfg, b, prev, created, order);
    ReuseAgreesIff(cfg, b0, refused, b, created, prev);
  }

  lemma CompleteBuildIsMarked(cfg: Config, b: Basis, prev: DefinitionSet, created: seq<Params>, p: Progress)
    requires Complete(cfg, b, prev, created, p) && TableGVRs(b.r) !! Fallbacks(b).Keys
    ensures Marked(b, p.entries)
  {
    forall gvr | gvr in p.entries && gvr in TableGVRs(b.r)
      ensures p.entries[gvr].uid == SlotAt(b.r, gvr).schema.uid
      ensures p.entries[gvr].identityHash == b.apiExport.identityHash
    {
      assert SlotBuilt(cfg, b, prev, |created|, p, SlotAt(b.r, gvr));
    }
  }

  lemma CompleteBuildMatches(cfg: Config, b: Basis, prev: DefinitionSet, created: seq<Params>,
                             order: seq<GroupResource>)
    requires WellFormed(cfg, b) && Enumerates(order, b.r.schemas.Keys)
    requires KnownSet(prev, created) && ReuseAgrees(cfg, b, prev, created)
    requires !Build(cfg, b, prev, order, created).failed
    ensures var p := Build(cfg, b, prev, order, created);
            Matching(cfg, b, Refused(cfg, b, prev), p.created, p.entries) && p.dropped == {}
  {
    var p := Build(cfg, b, prev, order, created);
    ReuseRefinesRebuildIff(cfg, b, prev, created, order);
    BuildCompletes(cfg, b, prev, created, order);
    CompleteBuildIsMarked(cfg, b, prev, created, p);
    assert KnownSet(p.entries, p.created) by {
      BuildKeeps(cfg, b, prev, created, order);
    }
  }

  /** Later creations do not change what a set published earlier shows. */
  lemma ViewIsStable(created: seq<Params>, later: seq<Params>, ds: DefinitionSet)
    requires KnownSet(ds, created) && created <= later
    ensures KnownSet(ds, later) && ViewOf(later, ds) == ViewOf(created, ds)
  {
    assert forall i :: 0 <= i < |created| ==> later[i] == created[i];
  }

  // ----- Stable inputs are compatible -----

  /** The identity a definition is created with follows from the claim and the export's own hash. */
  lemma IdentityOf(t: Tables, b: Basis, gr: GroupResource)
    requires Genuine(t, b) && gr in b.r.schemas
    ensures Get(b.r.identities, gr)
            == match Get(b.r.claims, gr)
               case None => Some(b.apiExport.identityHash)
               case Some(pc) => if ByIdentity(t, pc) then Some(pc.identityHash) else None
  {
    var c, listings :| Resolved(t, b, c, listings);
    var e := b.apiExport;
    ClaimLoopIsDeclarative(t, c, e, listings);
    var exported := ExportSchemas(c, e.cluster, e.resources).value;
    assert OwnedBy(t, c, e, exported, listings, b.r, gr, Winner(t, c, e, listings, gr, |e.claims|));
  }

  /** Constant selector, claims and schemas leave nothing stale. */
  lemma StableInputsLeaveNothingStale(cfg: Config, b0: Basis, refused: set<GVR>, b: Basis)
    requires Genuine(cfg.tables, b0) && Keyed(b0.r)
    requires Genuine(cfg.tables, b) && Keyed(b.r)
    requires StableInputs(b0, b)
    ensures NothingStale(cfg, b0, refused, b)
  {
    forall slot0, slot | Indistinguishable(b0, refused, b, slot0, slot) ensures SameBacking(cfg, b0, b, slot0, slot) {
      var gr := slot.schema.GR();
      assert gr in b0.r.schemas && gr in b.r.schemas;
      IdentityOf(cfg.tables, b0, gr);
      IdentityOf(cfg.tables, b, gr);
    }
  }

  /** Keyed tables collide neither with themselves nor with fallbacks of resources they do not hold. */
  lemma KeyedTablesAreUnique(b: Basis)
    requires Keyed(b.r)
    requires forall gr, i, j :: gr in b.r.schemas && 0 <= i < j < |b.r.schemas[gr].versions|
                                ==> b.r.schemas[gr].versions[i].name != b.r.schemas[gr].versions[j].name
    requires GroupResource(APIS_GROUP, APIBINDINGS) in b.r.schemas ==> b.r.claimsAPIBindings
    requires GroupResource(FILTERED_GROUP, FILTERED_SLICES) in b.r.schemas ==> b.r.claimsFilteredSlices
    ensures UniqueGVRs(b)
  {
    forall gr, i, gr', i' |
      && gr in b.r.schemas && 0 <= i < |b.r.schemas[gr].versions| && b.r.schemas[gr].versions[i].served
      && gr' in b.r.schemas && 0 <= i' < |b.r.schemas[gr'].versions| && b.r.schemas[gr'].versions[i'].served
      && Slot(b.r.schemas[gr], b.r.schemas[gr].versions[i]).GVR()
         == Slot(b.r.schemas[gr'], b.r.schemas[gr'].versions[i']).GVR()
      ensures gr == gr' && i == i'
    {
      assert b.r.schemas[gr].GR() == b.r.schemas[gr'].GR();
    }
    forall gvr | gvr in TableGVRs(b.r) ensures gvr !in Fallbacks(b) {
      assert gvr.GR() in b.r.schemas;
    }
  }

  /** A constant-table claim stores a schema under the claim's own group and resource. */
  predicate EntryFits(t: Tables, pc: PermissionClaim) {
    && (IsBuiltin(t, pc) ==> t.builtin[pc.GR()].GR() == pc.GR())
    && (!IsBuiltin(t, pc) && IsKcpGroup(pc) && pc.resource in t.kcp ==> t.kcp[pc.resource].GR() == pc.GR())
  }

  /** The table of a reconcile is keyed correctly exactly when every granted claim's entry fits. */
  lemma KeyedIffEntriesFit(t: Tables, b: Basis)
    requires Genuine(t, b)
    ensures Keyed(b.r) <==> forall gr :: gr in b.r.claims ==> EntryFits(t, b.r.claims[gr])
  {
    var c, listings :| Resolved(t, b, c, listings);
    var e := b.apiExport;
    ClaimLoopIsDeclarative(t, c, e, listings);
    var exported := ExportSchemas(c, e.cluster, e.resources).value;
    forall gr | gr in b.r.schemas
      ensures b.r.schemas[gr].GR() == gr <==> (gr in b.r.claims ==> EntryFits(t, b.r.claims[gr]))
    {
      assert OwnedBy(t, c, e, exported, listings, b.r, gr, Winner(t, c, e, listings, gr, |e.claims|));
    }
  }

  /**
   A table that files the endpoint slices' schema under another group: a claim
   on them then has neither a definition from the table nor the fallback.
   */
  lemma MisfiledEntryHidesSlices(t: Tables, b: Basis)
    requires Genuine(t, b)
    requires FILTERED_SLICES in t.kcp && t.kcp[FILTERED_SLICES].GR() != GroupResource(FILTERED_GROUP, FILTERED_SLICES)
    requires GroupResource(FILTERED_GROUP, FILTERED_SLICES) !in t.builtin
    requires GroupResource(FILTERED_GROUP, FILTERED_SLICES) in b.r.claims
    requires forall gr :: gr in b.r.schemas && gr != GroupResource(FILTERED_GROUP, FILTERED_SLICES)
                          ==> b.r.schemas[gr].GR() == gr
    ensures !Keyed(b.r)
    ensures SLICES_V1 !in TableGVRs(b.r) && SLICES_V1 !in Fallbacks(b)
  {
    var slices := GroupResource(FILTERED_GROUP, FILTERED_SLICES);
    var c, listings :| Resolved(t, b, c, listings);
    var e := b.apiExport;
    ClaimLoopIsDeclarative(t, c, e, listings);
    var exported := ExportSchemas(c, e.cluster, e.resources).value;
    assert OwnedBy(t, c, e, exported, listings, b.r, slices, Winner(t, c, e, listings, slices, |e.claims|));
    assert b.r.schemas[slices] == t.kcp[FILTERED_SLICES];
    forall slot | slot in TableSlots(b.r)
      ensures slot.GVR() != SLICES_V1
    {
      assert slot.GVR().GR() == slot.schema.GR();
    }
  }

  /** An entry for a GVR of the table has the parameters a new definition of its slot gets. */
  lemma TableEntry(cfg: Config, b: Basis, refused: set<GVR>, created: seq<Params>, ds: DefinitionSet, gvr: GVR)
    requires Matching(cfg, b, refused, created, ds)
    requires gvr in ds && gvr in TableGVRs(b.r)
    ensures ds[gvr].def < |created|
    ensures var slot := SlotAt(b.r, gvr);
            && slot.schema.GR() == GroupResource(gvr.group, gvr.resource) && slot.schema.GR() in b.r.schemas
            && slot.version.name == gvr.version
            && NewParams(cfg, b, slot.schema, slot.version.name) == Some(created[ds[gvr].def])
  {
    MatchingMeaning(cfg, b, refused, created, ds);
    assert SlotAt(b.r, gvr).schema.GR() in b.r.schemas;
  }

  /** A granted claim is stored under its own resource, and one by identity has an identity. */
  lemma ClaimsAreKeyed(t: Tables, b: Basis, gr: GroupResource)
    requires Genuine(t, b) && gr in b.r.claims
    ensures b.r.claims[gr].GR() == gr
    ensures gr in t.builtin || IsKcpGroup(b.r.claims[gr]) || b.r.claims[gr].identityHash != ""
  {
    var c, listings :| Resolved(t, b, c, listings);
    var e := b.apiExport;
    ClaimLoopIsDeclarative(t, c, e, listings);
    var exported := ExportSchemas(c, e.cluster, e.resources).value;
    assert OwnedBy(t, c, e, exported, listings, b.r, gr, Winner(t, c, e, listings, gr, |e.claims|));
  }

  lemma ClaimedIdentities(t: Tables, b: Basis, gr: GroupResource)
    requires Genuine(t, b) && gr in b.r.schemas && gr in b.r.claims
    ensures IdentityFor(b, gr)
            == if gr in t.builtin || gr.group == "apis.kcp.io" || gr.group == "filteredvw.kcp.io"
               then "" else b.r.claims[gr].identityHash
  {
    IdentityOf(t, b, gr);
    ClaimsAreKeyed(t, b, gr);
  }

  /** The identity of a published definition: the export's for its own resources, the claim's, or none. */
  lemma PublishedIdentity(cfg: Config, b: Basis, refused: set<GVR>, created: seq<Params>, ds: DefinitionSet, gvr: GVR)
    requires Matching(cfg, b, refused, created, ds)
    requires gvr in ds && gvr in TableGVRs(b.r)
    ensures ds[gvr].def < |created| && created[ds[gvr].def].Backed?
    ensures var identity, gr := created[ds[gvr].def].identity, GroupResource(gvr.group, gvr.resource);
            identity == if gr !in b.r.claims then b.apiExport.identityHash
                        else if gr in cfg.tables.builtin || gr.group == "apis.kcp.io" || gr.group == "filteredvw.kcp.io"
                        then "" else b.r.claims[gr].identityHash
  {
    TableEntry(cfg, b, refused, created, ds, gvr);
    var gr := GroupResource(gvr.group, gvr.resource);
    assert created[ds[gvr].def].Backed? && created[ds[gvr].def].identity == IdentityFor(b, gr);
    if gr in b.r.claims {
      ClaimedIdentities(cfg.tables, b, gr);
    } else {
      IdentityOf(cfg.tables, b, gr);
    }
  }

  /** The flags that say whether fallbacks are needed. */
  lemma FlagsMeaning(t: Tables, b: Basis)
    requires Genuine(t, b)
    ensures var bindings := GroupResource("apis.kcp.io", "apibindings");
            b.r.claimsAPIBindings <==> bindings in b.r.claims && bindings !in t.builtin
    ensures var slices := GroupResource("filteredvw.kcp.io", "filteredapiexportendpointslices");
            b.r.claimsFilteredSlices <==> slices in b.r.claims && slices !in t.builtin
  {
    var c, listings :| Resolved(t, b, c, listings);
    ClaimLoopIsDeclarative(t, c, b.apiExport, listings);
  }

  lemma FallbacksMeaning(b: Basis, gvr: GVR)
    ensures gvr in Fallbacks(b)
            <==> || (!b.r.claimsAPIBindings && gvr.group == "apis.kcp.io" && gvr.resource == "apibindings"
                     && (gvr.version == "v1alpha1" || gvr.version == "v1alpha2"))
                 || (!b.r.claimsFilteredSlices
                     && gvr == GVR("filteredvw.kcp.io", "v1alpha1", "filteredapiexportendpointslices"))
    ensures gvr in Fallbacks(b) ==>
              Fallbacks(b)[gvr] == if gvr.resource == "apibindings"
                                   then BindingsFallback(gvr.version, b.apiExport.cluster, b.apiExport.name)
                                   else SlicesFallback("v1alpha1", b.apiExport.cluster, b.apiExport.name)
  {
  }

  /**
   APIBindings are always served in both versions and endpoint slices in one:
   without a granted claim on them, by a fallback for the export itself.
   */
  lemma FallbacksAreServed(cfg: Config, b: Basis, refused: set<GVR>, created: seq<Params>, ds: DefinitionSet, gvr: GVR)
    requires Matching(cfg, b, refused, created, ds)
    requires gvr.GR() !in b.r.claims || gvr.GR() in cfg.tables.builtin
    requires || (gvr.group == "apis.kcp.io" && gvr.resource == "apibindings"
                 && (gvr.version == "v1alpha1" || gvr.version == "v1alpha2"))
             || gvr == GVR("filteredvw.kcp.io", "v1alpha1", "filteredapiexportendpointslices")
    ensures gvr in ds && ds[gvr].def < |created|
    ensures created[ds[gvr].def] == if gvr.resource == "apibindings"
                                    then BindingsFallback(gvr.version, b.apiExport.cluster, b.apiExport.name)
                                    else SlicesFallback("v1alpha1", b.apiExport.cluster, b.apiExport.name)
  {
    FlagsMeaning(cfg.tables, b);
    FallbacksMeaning(b, gvr);
    MatchingMeaning(cfg, b, refused, created, ds);
  }

  // ----- Runs -----

  /** A serving reconcile: its inputs, and the GVRs whose creation it was refused. */
  datatype Served = Served(basis: Basis, refused: set<GVR>)

  /** The reconciler's state and, per published key, its last serving reconcile. */
  datatype Tracked = Tracked(core: State, served: map<string, Served>)

  const START := Tracked(INITIAL, map[])

  ghost function Track(cfg: Config, s: Tracked, key: string, plan: Plan, ch: Choice): Tracked
    requires LegalPlan(s.core, key, plan, ch)
  {
    var (core, ok) := Reconcile(cfg, s.core, key, plan, ch);
    match plan
    case Retry => s.(core := core)
    case Remove => Tracked(core, s.served - {key})
    case Serve(b) =>
      if ok then Tracked(core, s.served[key := Served(b, Refused(cfg, b, SetOf(s.core, key)))])
      else s.(core := core)
  }

  /** What the last serving reconcile of `key` was refused. */
  function RefusedFor(s: Tracked, key: string): set<GVR> {
    if key in s.served then s.served[key].refused else {}
  }

  /** A reconcile whose inputs are well formed and leave nothing stale since the last one of the same key. */
  ghost predicate StableStep(cfg: Config, s: Tracked, key: string, plan: Plan, ch: Choice) {
    && LegalPlan(s.core, key, plan, ch)
    && (plan.Serve? ==>
          && WellFormed(cfg, plan.basis)
          && (key in s.served ==>
                NothingStale(cfg, s.served[key].basis, s.served[key].refused, plan.basis)))
  }

  ghost predicate TrackedInvariant(cfg: Config, s: Tracked) {
    Invariant(s.core) && AllMatching(cfg, s.core.created, s.core.sets, s.served)
  }

  ghost predicate AllMatching(cfg: Config, created: seq<Params>, sets: map<string, DefinitionSet>,
                              served: map<string, Served>)
  {
    && sets.Keys == served.Keys
    && forall key :: key in served ==> MatchesServed(cfg, served[key], created, sets[key])
  }

  ghost predicate MatchesServed(cfg: Config, x: Served, created: seq<Params>, ds: DefinitionSet) {
    Matching(cfg, x.basis, x.refused, created, ds)
  }

  lemma StableReuseAgrees(cfg: Config, s: Tracked, key: string, b: Basis, ch: Choice)
    requires TrackedInvariant(cfg, s) && StableStep(cfg, s, key, Serve(b), ch)
    ensures ReuseAgrees(cfg, b, SetOf(s.core, key), s.core.created)
  {
    if key in s.served {
      var x := s.served[key];
      assert MatchesServed(cfg, x, s.core.created, s.core.sets[key]);
      ReuseAgreesIff(cfg, x.basis, x.refused, b, s.core.created, SetOf(s.core, key));
    }
  }

  lemma StableStepServesScratch(cfg: Config, s: Tracked, key: string, b: Basis, ch: Choice)
    requires TrackedInvariant(cfg, s) && StableStep(cfg, s, key, Serve(b), ch)
    ensures Reconcile(cfg, s.core, key, Serve(b), ch).1 <==> ScratchSucceeds(cfg, b)
    ensures var p := Build(cfg, b, SetOf(s.core, key), ch.schemas, s.core.created);
            && s.core.created <= p.created
            && (!p.failed ==>
                  Matching(cfg, b, Refused(cfg, b, SetOf(s.core, key)), p.created, p.entries) && p.dropped == {})
  {
    var prev, created := SetOf(s.core, key), s.core.created;
    SetIsKnown(s.core, key);
    StableReuseAgrees(cfg, s, key, b, ch);
    ReuseRefinesRebuildIff(cfg, b, prev, created, ch.schemas);
    BuildKeeps(cfg, b, prev, created, ch.schemas);
    if !Build(cfg, b, prev, ch.schemas, created).failed {
      CompleteBuildMatches(cfg, b, prev, created, ch.schemas);
    }
  }

  lemma AllMatchingIsStable(cfg: Config, created: seq<Params>, later: seq<Params>, sets: map<string, DefinitionSet>,
                            served: map<string, Served>)
    requires AllMatching(cfg, created, sets, served) && created <= later
    ensures AllMatching(cfg, later, sets, served)
  {
    forall key | key in served ensures MatchesServed(cfg, served[key], later, sets[key]) {
      ViewIsStable(created, later, sets[key]);
    }
  }

  lemma PublishingKeepsMatching(cfg: Config, created: seq<Params>, sets: map<string, DefinitionSet>,
                                served: map<string, Served>, key: string, x: Served, ds: DefinitionSet)
    requires AllMatching(cfg, created, sets, served) && MatchesServed(cfg, x, created, ds)
    ensures AllMatching(cfg, created, sets[key := ds], served[key := x])
  {
    var sets', served' := sets[key := ds], served[key := x];
    forall k | k in served' ensures MatchesServed(cfg, served'[k], created, sets'[k]) {
      if k == key {
        assert served'[k] == x && sets'[k] == ds;
      } else {
        assert served'[k] == served[k] && sets'[k] == sets[k];
      }
    }
  }

  /** A serving reconcile writes its set under its key, or fails and writes nothing. */
  lemma ServingTracks(cfg: Config, s: Tracked, key: string, b: Basis, ch: Choice)
    requires LegalPlan(s.core, key, Serve(b), ch)
    ensures var t := Track(cfg, s, key, Serve(b), ch); var prev := SetOf(s.core, key);
            var p := Build(cfg, b, prev, ch.schemas, s.core.created);
            && t.core.created == p.created
            && t.core.sets == (if p.failed then s.core.sets else s.core.sets[key := p.entries])
            && t.served == if p.failed then s.served else s.served[key := Served(b, Refused(cfg, b, prev))]
  {
  }

  lemma ServingKeepsMatching(cfg: Config, s: Tracked, key: string, b: Basis, ch: Choice)
    requires TrackedInvariant(cfg, s) && StableStep(cfg, s, key, Serve(b), ch)
    ensures var t := Track(cfg, s, key, Serve(b), ch);
            AllMatching(cfg, t.core.created, t.core.sets, t.served)
  {
    var p := Build(cfg, b, SetOf(s.core, key), ch.schemas, s.core.created);
    var x := Served(b, Refused(cfg, b, SetOf(s.core, key)));
    assert s.core.created <= p.created && (!p.failed ==> MatchesServed(cfg, x, p.created, p.entries)) by {
      StableStepServesScratch(cfg, s, key, b, ch);
    }
    ServingTracks(cfg, s, key, b, ch);
    AllMatchingIsStable(cfg, s.core.created, p.created, s.core.sets, s.served);
    if !p.failed {
      PublishingKeepsMatching(cfg, p.created, s.core.sets, s.served, key, x, p.entries);
    }
  }

  lemma TrackKeepsInvariant(cfg: Config, s: Tracked, key: string, plan: Plan, ch: Choice)
    requires TrackedInvariant(cfg, s) && StableStep(cfg, s, key, plan, ch)
    ensures TrackedInvariant(cfg, Track(cfg, s, key, plan, ch))
  {
    var t := Track(cfg, s, key, plan, ch);
    assert AllMatching(cfg, t.core.created, t.core.sets, t.served) by {
      match plan
      case Retry =>
      case Remove =>
      case Serve(b) => ServingKeepsMatching(cfg, s, key, b, ch);
    }
    ReconcileKeepsInvariant(cfg, s.core, key, plan, ch);
  }

  // ----- A creator that changes its answers -----

  /** The same surroundings, except that other creations may be refused. */
  ghost predicate Varies(cfg: Config, other: Config) {
    other == cfg.(creatable := other.creatable)
  }

  lemma ScratchViewVaries(cfg: Config, other: Config, b: Basis)
    requires Varies(cfg, other)
    ensures ScratchSucceeds(cfg, b) <==> ScratchSucceeds(other, b)
    ensures ScratchSucceeds(cfg, b) ==> ScratchView(cfg, b) == ScratchView(other, b)
  {
    assert forall slot :: SlotParams(cfg, b, slot) == SlotParams(other, b, slot);
  }

  /** Whether a set matches does not depend on what the creator refuses at the moment. */
  lemma InvariantVaries(cfg: Config, other: Config, s: Tracked)
    requires Varies(cfg, other) && TrackedInvariant(cfg, s)
    ensures TrackedInvariant(other, s)
  {
    forall key | key in s.served
      ensures MatchesServed(other, s.served[key], s.core.created, s.core.sets[key])
    {
      assert MatchesServed(cfg, s.served[key], s.core.created, s.core.sets[key]);
      ScratchViewVaries(cfg, other, s.served[key].basis);
    }
  }

  /** A stable step whose creator may answer differently from the one of `cfg`. */
  lemma VaryingStepKeepsInvariant(cfg: Config, other: Config, s: Tracked, key: string, plan: Plan, ch: Choice)
    requires Varies(cfg, other)
    requires TrackedInvariant(cfg, s) && StableStep(other, s, key, plan, ch)
    ensures TrackedInvariant(cfg, Track(other, s, key, plan, ch))
  {
    InvariantVaries(cfg, other, s);
    TrackKeepsInvariant(other, s, key, plan, ch);
    InvariantVaries(other, cfg, Track(other, s, key, plan, ch));
  }

  ghost predicate StableRun(cfg: Config, states: seq<Tracked>) {
    && states != []
    && states[0] == START
    && forall i :: 0 < i < |states| ==> StableSuccessor(cfg, states[i - 1], states[i])
  }

  ghost predicate StableSuccessor(cfg: Config, s: Tracked, t: Tracked) {
    exists other, key, plan, ch :: StableStepTo(cfg, other, s, key, plan, ch, t)
  }

  ghost predicate StableStepTo(cfg: Config, other: Config, s: Tracked, key: string, plan: Plan, ch: Choice,
                               t: Tracked)
  {
    Varies(cfg, other) && StableStep(other, s, key, plan, ch) && t == Track(other, s, key, plan, ch)
  }

  lemma StartSatisfiesInvariant(cfg: Config)
    ensures TrackedInvariant(cfg, START)
  {
    assert forall id: nat :: !Live(INITIAL, id);
  }

  ghost predicate SetIsScratch(cfg: Config, x: Served, created: seq<Params>, ds: DefinitionSet) {
    var b := x.basis;
    && ScratchSucceeds(cfg, b)
    && ViewOf(created, ds) == Without(ScratchView(cfg, b), x.refused)
    && (forall gvr :: gvr in ds && gvr in TableGVRs(b.r) ==>
          ds[gvr].def < |created| && SlotParams(cfg, b, SlotAt(b.r, gvr)) == Some(created[ds[gvr].def]))
    && (ViewOf(created, ds) == ScratchView(cfg, b) <==> x.refused == {})
  }

  /**
   In every state of every stable run, whatever creations were refused on the
   way: each published set is its from-scratch set less what its last serving
   reconcile was refused. Entry by entry, a definition for a GVR of the table
   has the parameters a new one would get now; and the set is the whole
   from-scratch set exactly when that reconcile was refused nothing.
   */
  lemma {:induction false} EveryStableRunServesScratch(cfg: Config, states: seq<Tracked>, i: nat)
    requires StableRun(cfg, states) && i < |states|
    ensures TrackedInvariant(cfg, states[i])
    ensures forall key :: key in states[i].core.sets ==>
              && key in states[i].served
              && SetIsScratch(cfg, states[i].served[key], states[i].core.created, states[i].core.sets[key])
  {
    if i == 0 {
      StartSatisfiesInvariant(cfg);
    } else {
      EveryStableRunServesScratch(cfg, states, i - 1);
      var other, key, plan, ch :| StableStepTo(cfg, other, states[i - 1], key, plan, ch, states[i]);
      VaryingStepKeepsInvariant(cfg, other, states[i - 1], key, plan, ch);
    }
    var s := states[i];
    forall key | key in s.core.sets
      ensures SetIsScratch(cfg, s.served[key], s.core.created, s.core.sets[key])
    {
      assert MatchesServed(cfg, s.served[key], s.core.created, s.core.sets[key]);
      MatchingMeaning(cfg, s.served[key].basis, s.served[key].refused, s.core.created, s.core.sets[key]);
    }
  }

  /** A reconcile that completes the serving path with unique GVRs drops no definition. */
  lemma ServingDropsNothing(cfg: Config, s: State, key: string, b: Basis, ch: Choice)
    requires LegalPlan(s, key, Serve(b), ch) && UniqueGVRs(b)
    requires Reconcile(cfg, s, key, Serve(b), ch).1
    ensures Reconcile(cfg, s, key, Serve(b), ch).0.dropped == s.dropped
  {
    BuildCompletes(cfg, b, SetOf(s, key), s.created, ch.schemas);
  }
}
