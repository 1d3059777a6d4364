/** Inputs at which the choice among exports, the reuse test and the constant table show their limits. */
module ClaimExamples {
  import opened Wrappers
  import opened Labels
  import opened Apis
  import opened ExportOrder
  import opened ClaimResolution
  import opened Definitions
  import opened Lifecycle
  import opened Refinement
  import opened Reuse
  import opened ServedExample
  import opened StringOrder

  // ----- Two exports of one identity and one name -----

  const GADGETS := GroupResource("example.io", "gadgets")
  const GADGETS_EAST := Schema("uid-east", "example.io", "gadgets", [Version("v1", true)], "east", "")
  const GADGETS_WEST := Schema("uid-west", "example.io", "gadgets", [Version("v1", true)], "west", "")
  const EAST := APIExport("east", "", "gadgets", "gadget-hash", ["v1.gadgets"], [], NoPolicy)
  const WEST := APIExport("west", "", "gadgets", "gadget-hash", ["v1.gadgets"], [], NoPolicy)
  const TWINS := Caches(map[],
                        map[ObjectKey("east", "gadgets") := EAST, ObjectKey("west", "gadgets") := WEST],
                        map[ObjectKey("east", "v1.gadgets") := GADGETS_EAST,
                            ObjectKey("west", "v1.gadgets") := GADGETS_WEST],
                        {}, {}, {}, false)

  lemma OneListedSchema(c: Caches, cluster: ClusterName, name: string, s: Schema)
    requires c.Schema(ObjectKey(cluster, name)) == Found(s)
    ensures ExportSchemas(c, cluster, [name]) == Ok(map[s.GR() := s])
  {
    assert [name][..0] == [];
  }

  lemma TwinSchemas()
    ensures SchemaIn(TWINS, EAST, GADGETS) == Some(GADGETS_EAST)
    ensures SchemaIn(TWINS, WEST, GADGETS) == Some(GADGETS_WEST)
    ensures Readable(TWINS, [EAST, WEST]) && Readable(TWINS, [WEST, EAST])
  {
    OneListedSchema(TWINS, "east", "v1.gadgets", GADGETS_EAST);
    OneListedSchema(TWINS, "west", "v1.gadgets", GADGETS_WEST);
  }

  /** Exports of one name keep the order they came in: the comparator never puts one before the other. */
  lemma TwinsStayAsTheyAre(a: APIExport, b: APIExport)
    requires a.name == b.name
    ensures Sort([a, b]) == [a, b]
  {
    LessIsStrict(a.name, b.name);
    var none: seq<APIExport> := [];
    assert [a][..0] == none && [a, b][..1] == [a];
    assert Sort([a]) == Insert(a, none) == [a];
    assert [a][1..] == none;
    assert Insert(b, [a]) == [a] + Insert(b, none);
  }

  lemma TwinsAreIndexed(index: seq<APIExport>)
    requires index == [EAST, WEST] || index == [WEST, EAST]
    ensures Lifecycle.Indexed(TWINS, "gadget-hash", index)
  {
    assert TWINS.exports[ObjectKey("east", "gadgets")] == EAST;
    assert TWINS.exports[ObjectKey("west", "gadgets")] == WEST;
  }

  /**
   Both orders are possible answers of the index, and the same sort with the
   same comparator leads to different schemas for the same claim.
   */
  lemma TwinsArePickedByChance()
    ensures Lifecycle.Indexed(TWINS, "gadget-hash", [EAST, WEST])
    ensures Lifecycle.Indexed(TWINS, "gadget-hash", [WEST, EAST])
    ensures LastMatch(TWINS, Sort([EAST, WEST]), GADGETS) == Ok(Some(GADGETS_WEST))
    ensures LastMatch(TWINS, Sort([WEST, EAST]), GADGETS) == Ok(Some(GADGETS_EAST))
    ensures GADGETS_EAST != GADGETS_WEST
  {
    TwinsAreIndexed([EAST, WEST]);
    TwinsAreIndexed([WEST, EAST]);
    TwinsPick(EAST, WEST);
    TwinsPick(WEST, EAST);
  }

  lemma TwinsPick(a: APIExport, b: APIExport)
    requires {a, b} == {EAST, WEST}
    ensures LastMatch(TWINS, Sort([a, b]), GADGETS) == Ok(SchemaIn(TWINS, b, GADGETS))
    ensures SchemaIn(TWINS, b, GADGETS) == Some(if b == EAST then GADGETS_EAST else GADGETS_WEST)
  {
    TwinSchemas();
    TwinsStayAsTheyAre(a, b);
    LastPicked(TWINS, [a, b], [a, b], GADGETS);
  }

  // ----- Two exports in no order below a third -----

  const FIRST_EAST := EAST.(name := "a")
  const SECOND_EAST := EAST.(name := "b")
  const LAST_WEST := WEST.(name := "c")
  const TRIO := Caches(map[],
                       map[ObjectKey("east", "a") := FIRST_EAST, ObjectKey("east", "b") := SECOND_EAST,
                           ObjectKey("west", "c") := LAST_WEST],
                       TWINS.schemas, {}, {}, {}, false)

  lemma TrioOrder()
    ensures Before(FIRST_EAST, LAST_WEST) && Before(SECOND_EAST, LAST_WEST)
    ensures !Before(FIRST_EAST, SECOND_EAST) && !Before(SECOND_EAST, FIRST_EAST)
    ensures forall e :: e == FIRST_EAST || e == SECOND_EAST || e == LAST_WEST ==> !Before(LAST_WEST, e) && !Before(e, e)
  {
    LessIsStrict("east", "east");
    LessIsStrict("west", "west");
    assert Less("east", "west") && !Less("west", "east");
    assert Less("a", "c") && Less("b", "c");
  }

  lemma TrioSchemas()
    ensures SchemaIn(TRIO, FIRST_EAST, GADGETS) == SchemaIn(TRIO, SECOND_EAST, GADGETS) == Some(GADGETS_EAST)
    ensures SchemaIn(TRIO, LAST_WEST, GADGETS) == Some(GADGETS_WEST)
    ensures Readable(TRIO, TRIO_INDEX)
  {
    OneListedSchema(TRIO, "east", "v1.gadgets", GADGETS_EAST);
    OneListedSchema(TRIO, "west", "v1.gadgets", GADGETS_WEST);
  }

  /** Two unordered exports below a third meet a sort's demands. */
  lemma ForkIsWeak(a: APIExport, b: APIExport, top: APIExport)
    requires Before(a, top) && Before(b, top) && !Before(a, b) && !Before(b, a)
    ensures Weak([a, b, top])
  {
    BeforeIsStrict(a, a);
    BeforeIsStrict(b, b);
    BeforeIsStrict(top, top);
    BeforeIsStrict(a, top);
    BeforeIsStrict(b, top);
  }

  /** The third export is then the one picked, if it has the resource. */
  lemma ForkPicksTop(c: Caches, a: APIExport, b: APIExport, top: APIExport, xs: seq<APIExport>, gr: GroupResource)
    requires Before(a, top) && Before(b, top) && !Before(a, b) && !Before(b, a)
    requires Readable(c, [a, b, top]) && SchemaIn(c, top, gr).Some? && Listing([a, b, top], xs)
    ensures LastMatch(c, xs, gr) == Ok(SchemaIn(c, top, gr))
  {
    ForkIsWeak(a, b, top);
    assert top in [a, b, top];
    var e := OrderedPick(c, [a, b, top], xs, gr);
  }

  const TRIO_INDEX := [FIRST_EAST, SECOND_EAST, LAST_WEST]

  lemma TrioHasTwoSchemas()
    ensures !OrdersAll(TRIO_INDEX) && !OneSchema(TRIO, TRIO_INDEX, GADGETS)
  {
    TrioOrder();
    TrioSchemas();
    assert FIRST_EAST in TRIO_INDEX && SECOND_EAST in TRIO_INDEX && LAST_WEST in TRIO_INDEX;
  }

  /**
   The comparator leaves two exports unordered and the schemas differ, yet the
   same schema is always picked: every sort puts the third export last.
   */
  lemma TrioIsPickedAlike(xs: seq<APIExport>)
    requires Listing(TRIO_INDEX, xs)
    ensures !OrdersAll(TRIO_INDEX) && !OneSchema(TRIO, TRIO_INDEX, GADGETS)
    ensures LastMatch(TRIO, xs, GADGETS) == Ok(Some(GADGETS_WEST))
  {
    TrioHasTwoSchemas();
    TrioOrder();
    TrioSchemas();
    ForkPicksTop(TRIO, FIRST_EAST, SECOND_EAST, LAST_WEST, xs, GADGETS);
  }

  // ----- A claimed resource that becomes exported -----

  const SHARED := Schema("uid", "example.io", "gadgets", [Version("v1", true)], "root", "")
  const SHARED_SLOT := Slot(SHARED, Version("v1", true))
  const CLAIM := PermissionClaim("example.io", "gadgets", "provider-hash", ["*"])
  const PROVIDER := APIExport("root", "root", "provider", "provider-hash", ["v1.gadgets"], [], NoPolicy)
  const CLAIMING := APIExport("root", "root", "consumer", "consumer-hash", [], [CLAIM], NoPolicy)
  /** The same export after it lists the schema itself. */
  const LISTING := CLAIMING.(resources := ["v1.gadgets"])
  const SLICE := EndpointSlice("root", "view", "root", "consumer", LabelSelector(map[], []))

  function CachesWith(consumer: APIExport): Caches {
    Caches(map[SLICE.Key() := SLICE],
           map[ObjectKey("root", "provider") := PROVIDER, ObjectKey("root", "consumer") := consumer],
           map[ObjectKey("root", "v1.gadgets") := SHARED], {}, {}, {}, false)
  }

  const CLAIMED := Basis(SLICE, CLAIMING, Resolution(map[GADGETS := SHARED], map[GADGETS := "provider-hash"],
                                                     map[GADGETS := CLAIM], false, false))
  const LISTED := Basis(SLICE, LISTING, Resolution(map[GADGETS := SHARED], map[GADGETS := "consumer-hash"],
                                                   map[], false, false))

  lemma ProviderSchemas(consumer: APIExport)
    ensures ExportSchemas(CachesWith(consumer), "root", ["v1.gadgets"]) == Ok(map[GADGETS := SHARED])
    ensures LastMatch(CachesWith(consumer), [PROVIDER], GADGETS) == Ok(Some(SHARED))
  {
    OneListedSchema(CachesWith(consumer), "root", "v1.gadgets", SHARED);
    assert [PROVIDER][..0] == [];
  }

  ghost predicate NoBuiltinGadgets(cfg: Config) { GADGETS !in cfg.tables.builtin }

  lemma ClaimedPlan(cfg: Config)
    requires NoBuiltinGadgets(cfg)
    ensures PlanFor(cfg, CachesWith(CLAIMING), Some(SLICE), [[PROVIDER]]) == Serve(CLAIMED)
  {
    var c := CachesWith(CLAIMING);
    ProviderSchemas(CLAIMING);
    assert ExportSchemas(c, "root", []) == Ok(map[]);
    assert ApplyClaims(cfg.tables, c, CLAIMING, map[], [[PROVIDER]], 0) == Ok(Start(CLAIMING, map[]));
    assert Candidate(cfg.tables, c, CLAIMING, CLAIM, [PROVIDER]) == Ok(Some(SHARED));
    assert ApplyClaim(cfg.tables, c, CLAIMING, CLAIM, [PROVIDER], Start(CLAIMING, map[])) == Ok(CLAIMED.r);
  }

  lemma ListedPlan(cfg: Config)
    requires NoBuiltinGadgets(cfg)
    ensures PlanFor(cfg, CachesWith(LISTING), Some(SLICE), [[PROVIDER]]) == Serve(LISTED)
  {
    var c := CachesWith(LISTING);
    ProviderSchemas(LISTING);
    var exported := map[GADGETS := SHARED];
    assert Start(LISTING, exported) == LISTED.r;
    assert ApplyClaims(cfg.tables, c, LISTING, exported, [[PROVIDER]], 0) == Ok(LISTED.r);
    assert ApplyClaim(cfg.tables, c, LISTING, CLAIM, [PROVIDER], LISTED.r) == Ok(LISTED.r);
  }

  lemma ListingIsLegal(consumer: APIExport)
    requires consumer == CLAIMING || consumer == LISTING
    ensures LegalListings(CachesWith(consumer), consumer, [[PROVIDER]])
  {
    assert CachesWith(consumer).exports[ObjectKey("root", "provider")] == PROVIDER;
    assert Lifecycle.Indexed(CachesWith(consumer), "provider-hash", [PROVIDER]);
    assert Listing([PROVIDER], [PROVIDER]);
  }

  lemma BothAreWellFormed(cfg: Config)
    requires NoBuiltinGadgets(cfg)
    ensures WellFormed(cfg, CLAIMED) && WellFormed(cfg, LISTED)
  {
    ClaimedPlan(cfg);
    ListedPlan(cfg);
    assert Resolved(cfg.tables, CLAIMED, CachesWith(CLAIMING), [[PROVIDER]]);
    assert Resolved(cfg.tables, LISTED, CachesWith(LISTING), [[PROVIDER]]);
    KeyedTablesAreUnique(CLAIMED);
    KeyedTablesAreUnique(LISTED);
  }

  const FIRST := Choice([[PROVIDER]], [GADGETS], [])

  /** The claim's label can be computed and nothing is refused. */
  ghost predicate Willing(cfg: Config) {
    && NoBuiltinGadgets(cfg)
    && cfg.claimLabel("root", "consumer", CLAIM).Some?
    && forall p :: cfg.creatable(p)
  }

  lemma SharedSlots(cfg: Config)
    requires Willing(cfg)
    ensures TableSlots(CLAIMED.r) == TableSlots(LISTED.r) == {SHARED_SLOT}
    ensures SlotParams(cfg, CLAIMED, SHARED_SLOT).Some? && SlotParams(cfg, LISTED, SHARED_SLOT).Some?
    ensures SlotParams(cfg, CLAIMED, SHARED_SLOT) != SlotParams(cfg, LISTED, SHARED_SLOT)
  {
    assert CLAIMED.r.schemas[GADGETS].versions[0].served;
  }

  /** The entry at the slot's GVR was made for it, with the parameters of `b`. */
  ghost predicate EntryMadeFor(cfg: Config, created: seq<Params>, ds: DefinitionSet, b: Basis, slot: Slot) {
    && slot.GVR() in ds
    && var x := ds[slot.GVR()];
       && x.uid == slot.schema.uid && x.identityHash == b.apiExport.identityHash && x.def < |created|
       && Some(created[x.def]) == SlotParams(cfg, b, slot)
  }

  lemma MatchingEntry(cfg: Config, b: Basis, refused: set<GVR>, created: seq<Params>, ds: DefinitionSet, slot: Slot)
    requires Matching(cfg, b, refused, created, ds)
    requires slot in TableSlots(b.r) && slot.GVR() !in refused
    ensures EntryMadeFor(cfg, created, ds, b, slot)
  {
    SlotAtIsUnique(b, slot);
    MatchingMeaning(cfg, b, refused, created, ds);
  }

  lemma TrackedEntry(cfg: Config, t: Tracked, key: string, slot: Slot)
    requires TrackedInvariant(cfg, t) && key in t.served
    requires slot in TableSlots(t.served[key].basis.r) && slot.GVR() !in t.served[key].refused
    ensures EntryMadeFor(cfg, t.core.created, SetOf(t.core, key), t.served[key].basis, slot)
  {
    var x := t.served[key];
    assert MatchesServed(cfg, x, t.core.created, t.core.sets[key]);
    MatchingEntry(cfg, x.basis, x.refused, t.core.created, t.core.sets[key], slot);
  }

  lemma NothingIsRefused(cfg: Config, b: Basis, prev: DefinitionSet)
    requires forall p :: cfg.creatable(p)
    ensures Refused(cfg, b, prev) == {}
  {
  }

  /** What the first reconcile of a key publishes for one slot of its table. */
  lemma FirstEntry(cfg: Config, key: string, b: Basis, ch: Choice, slot: Slot) returns (t: Tracked)
    requires Servable(cfg, b) && Enumerates(ch.schemas, b.r.schemas.Keys) && ch.cleanup == []
    requires slot in TableSlots(b.r) && forall p :: cfg.creatable(p)
    ensures StableStep(cfg, START, key, Serve(b), ch) && t == Track(cfg, START, key, Serve(b), ch)
    ensures Invariant(t.core) && EntryMadeFor(cfg, t.core.created, SetOf(t.core, key), b, slot)
  {
    FirstServed(cfg, key, b, ch);
    NothingIsRefused(cfg, b, map[]);
    t := Track(cfg, START, key, Serve(b), ch);
    TrackedEntry(cfg, t, key, slot);
  }

  /** A build that wants other parameters for the same slot reuses the old entry all the same. */
  lemma StaleBuild(cfg: Config, b0: Basis, b: Basis, prev: DefinitionSet, created: seq<Params>,
                   order: seq<GroupResource>, slot: Slot)
    requires Servable(cfg, b) && KnownSet(prev, created) && Enumerates(order, b.r.schemas.Keys)
    requires EntryMadeFor(cfg, created, prev, b0, slot) && b0.apiExport.identityHash == b.apiExport.identityHash
    requires slot in TableSlots(b.r) && SlotParams(cfg, b0, slot) != SlotParams(cfg, b, slot)
    ensures !ReuseAgrees(cfg, b, prev, created)
    ensures var p := Build(cfg, b, prev, order, created);
            !p.failed && ViewOf(p.created, p.entries) != ScratchView(cfg, b)
  {
    assert Reused(b, prev, slot);
    BuildCompletes(cfg, b, prev, created, order);
    PublishesAllIff(cfg, b, prev, created, order);
  }

  lemma StaleReconcile(cfg: Config, s: State, key: string, b0: Basis, b: Basis, ch: Choice, slot: Slot)
    requires Servable(cfg, b) && Invariant(s) && LegalPlan(s, key, Serve(b), ch)
    requires EntryMadeFor(cfg, s.created, SetOf(s, key), b0, slot)
    requires b0.apiExport.identityHash == b.apiExport.identityHash
    requires slot in TableSlots(b.r) && SlotParams(cfg, b0, slot) != SlotParams(cfg, b, slot)
    ensures !ReuseAgrees(cfg, b, SetOf(s, key), s.created)
    ensures ServesOther(cfg, s, key, b, ch)
  {
    SetIsKnown(s, key);
    StaleBuild(cfg, b0, b, SetOf(s, key), s.created, ch.schemas, slot);
  }

  /** The reconcile succeeds and publishes something else than the from-scratch view. */
  ghost predicate ServesOther(cfg: Config, s: State, key: string, b: Basis, ch: Choice)
    requires ScratchSucceeds(cfg, b) && LegalPlan(s, key, Serve(b), ch)
  {
    var (t, ok) := Reconcile(cfg, s, key, Serve(b), ch);
    ok && ViewOf(t.created, SetOf(t, key)) != ScratchView(cfg, b)
  }

  /** With the export of `b` in the caches, the reconcile of the slice serves `b`. */
  ghost predicate Decides(cfg: Config, b: Basis) {
    && LegalListings(CachesWith(b.apiExport), b.apiExport, [[PROVIDER]])
    && PlanFor(cfg, CachesWith(b.apiExport), Some(SLICE), [[PROVIDER]]) == Serve(b)
  }

  lemma TwoPlans(cfg: Config)
    requires NoBuiltinGadgets(cfg)
    ensures Decides(cfg, CLAIMED) && Decides(cfg, LISTED)
  {
    ClaimedPlan(cfg);
    ListedPlan(cfg);
    ListingIsLegal(CLAIMING);
    ListingIsLegal(LISTING);
  }

  /**
   An export claims a resource of another export and is served with it; then it
   lists the same schema itself. Schema UID and export identity are unchanged,
   so the reconcile keeps the definition with the provider's identity and the
   claim's label, which a build from nothing would not create.
   */
  lemma StaleReuse(cfg: Config, key: string) returns (t: Tracked, ch: Choice)
    requires Willing(cfg)
    ensures Decides(cfg, CLAIMED) && Decides(cfg, LISTED)
    ensures WellFormed(cfg, CLAIMED) && WellFormed(cfg, LISTED) && ScratchSucceeds(cfg, LISTED)
    ensures StableStep(cfg, START, key, Serve(CLAIMED), FIRST) && t == Track(cfg, START, key, Serve(CLAIMED), FIRST)
    ensures LegalPlan(t.core, key, Serve(LISTED), ch)
    ensures !ReuseAgrees(cfg, LISTED, SetOf(t.core, key), t.core.created)
    ensures ServesOther(cfg, t.core, key, LISTED, ch)
  {
    TwoPlans(cfg);
    BothAreWellFormed(cfg);
    SharedSlots(cfg);
    t := FirstEntry(cfg, key, CLAIMED, FIRST, SHARED_SLOT);
    var cleanup := SomeOrder(SetOf(t.core, key).Keys);
    ch := Choice([[PROVIDER]], [GADGETS], cleanup);
    StaleReconcile(cfg, t.core, key, CLAIMED, LISTED, ch, SHARED_SLOT);
  }

  // ----- A misfiled table entry -----

  const SLICES := GroupResource(FILTERED_GROUP, FILTERED_SLICES)
  const SLICES_CLAIM := PermissionClaim(FILTERED_GROUP, FILTERED_SLICES, "", ["get"])
  const SLICES_CLAIMING := APIExport("root", "root", "consumer", "consumer-hash", [], [SLICES_CLAIM], NoPolicy)

  /**
   With the group the constant table has, every claim on endpoint slices is a
   case: the claim is granted, and the claimed group serves nothing, while
   without the claim the fallback serves it.
   */
  lemma MisfiledExample(t: Tables) returns (claimed: Basis, unclaimed: Basis)
    requires SLICES !in t.builtin && FILTERED_SLICES in t.kcp
    requires t.kcp[FILTERED_SLICES].GR() == GroupResource("filteredapiexport.kcp.io", FILTERED_SLICES)
    ensures Genuine(t, claimed) && SLICES in claimed.r.claims && !Keyed(claimed.r)
    ensures SLICES_V1 !in TableGVRs(claimed.r) && SLICES_V1 !in Fallbacks(claimed)
    ensures Genuine(t, unclaimed) && SLICES_V1 in Fallbacks(unclaimed)
  {
    var c := Caches(map[], map[], map[], {}, {}, {}, false);
    var none: seq<seq<APIExport>> := [];
    var plain := SLICES_CLAIMING.(claims := []);
    var start := Start(plain, map[]);
    unclaimed := Basis(SLICE, plain, start);
    assert Resolved(t, unclaimed, c, none);
    var r := Resolution(map[SLICES := t.kcp[FILTERED_SLICES]], map[], map[SLICES := SLICES_CLAIM], false, true);
    claimed := Basis(SLICE, SLICES_CLAIMING, r);
    assert ApplyClaims(t, c, SLICES_CLAIMING, map[], [[]], 0) == Ok(start);
    assert ApplyClaim(t, c, SLICES_CLAIMING, SLICES_CLAIM, [], start) == Ok(r);
    assert Resolved(t, claimed, c, [[]]);
    MisfiledEntryHidesSlices(t, claimed);
  }
}
